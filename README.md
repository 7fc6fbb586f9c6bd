# fpi-controller night scheduler, modelled in Dafny

This project models the decision core of the Fabry-Perot interferometer
controller's nightly script `main_scheduler.py`. The script:

- powers up the instrument through a network power relay;
- finds the SkyAlert cloud sensor and the filter wheel on the network from
  their MAC addresses, with bounded retries;
- sets up the sky scanner, the filter wheel and the Andor camera;
- takes bias, dark and laser calibration images when it is still within ten
  minutes of sunset;
- repeats the observation plan until sunrise:
  - each entry is skipped when the moon is too close;
  - otherwise the entry is exposed with a time chosen by a feedback law from
    its last exposure and its measured intensity;
  - a laser calibration image is taken whenever the calibration interval has
    elapsed;
- shuts down by parking the instrument, warming the camera up and switching
  the four instrument ports off.

The interrupt handler and the fault handler end with the same four-port
power down.

Modelling choices:

- Every driver call becomes a `Cmd` appended to the controller's `trace`.
  The state of a relay port is the state last commanded to it
  (`Hardware.LastCommanded`).
- Outside readings are supplied as inputs:
  - the wall clock and the camera temperature are finite sequences; once
    used up, every further query answers the last reading;
  - the moon angle and the intensity of each sky image are indexed by query
    number;
  - the MAC lookups are a finite sequence; a lookup past its end finds
    nothing.
- Each `datetime.now()` call of the source consumes one clock reading. This
  includes the calls that only feed log lines (262). Each `getTemperature()`
  call consumes one temperature reading, so the warm-up poll reads twice per
  iteration (290, 291). Time is in integer seconds.
- The script's mutable state becomes the `Scheduler.Controller` class:
  - the plan is an `array` of `Plan.Observation` updated in place;
  - `laser_lasttime`, the discovered addresses and the serial fallback flag
    are fields;
  - the loops, including the `for` loop over the plan, are `while` loops with invariants.
- The visits of the night loop are logged, pass by pass, in the ghost field
  `passes`. Each `Plan.Visit` holds:
  - the clock position and reading it was begun on, and the position of the
    next reading after it;
  - its moon-angle query number, its image count and the laser time it
    started from;
  - the entry before and after it;
  - the commands it sent.

  `Scheduler.Visited` ties each record to the supplied readings.
  `Plan.Chained` begins each visit on the reading right after the one
  before, and `Plan.Consecutive` chains the moon, image and laser readings.
  `Scheduler.PassDone` describes one pass from the loop state (`Plan.Loop`)
  at the check before it; `Scheduler.NightRuns` describes the night pass by
  pass, each pass right after a check that read at most sunrise, and
  `Plan.NightState` is where the loop then stands. The night's part of the
  trace is the visits' commands in order.
- The exposure law, the laser-due check and the discovery lookup count are
  pure functions. Lemmas about them state what the law, the check and the
  count promise.

The code does not cap the default exposure: a never-exposed entry uses its
`defaultExposureTime` even when that is above `maxExposureTime` (237-238).
The model follows the code, and `Exposure.DefaultNotCapped` exhibits the
case. The cap holds only on the feedback branch (`Exposure.CappedWhenExposed`).

The filter wheel's network address ends in a slash only when the first lookup
succeeds (86). A lookup after the power cycle or a retry yields an address
without the slash (97, 109). `Discovery.FilterWheelUrl` keeps this difference.

## Model

| member | source | states |
|---|---|---|
| Exposure.DefaultWhenUnexposed | main_scheduler.py:237-238 | when the last intensity or the last exposure is zero, the exposure is the entry's default, whatever the desired intensity and the cap |
| Exposure.CappedWhenExposed | main_scheduler.py:239-241 | once exposed, the exposure never exceeds the cap and is either the cap or the damped step 0.5·lastExpTime·(1 + desired/lastIntensity) |
| Exposure.DefaultNotCapped | main_scheduler.py:237-241 | a default exposure above the cap is used uncapped (default 5 with cap 4 gives 5) |
| Exposure.DampedStepMonotone | main_scheduler.py:240 | with positive last intensity and exposure, the damped step is non-decreasing in the desired intensity |
| Exposure.MonotoneInDesired | main_scheduler.py:237-241 | with positive last intensity and exposure, the chosen exposure is non-decreasing in the desired intensity |
| Exposure.SteadyOnTarget | main_scheduler.py:239-241 | an entry that measured exactly its desired intensity keeps its last exposure, capped |
| Exposure.MovesTowardTarget | main_scheduler.py:239-241 | too dark gives a longer exposure or the cap; too bright gives a strictly shorter one; one step never drops below half the last exposure (or the cap) |
| Exposure.Min | main_scheduler.py:240 | the minimum is at most both arguments and equal to one of them |
| Calibration.RecheckAfterRecording | main_scheduler.py:263-283 | after `laser_lasttime` is set to now, an immediate re-check with a non-negative interval is not due |
| Calibration.DueOnlyStrictlyAfter | main_scheduler.py:263 | the comparison is strict: exactly one interval after the last calibration is not due, one second later is |
| Calibration.StaysDue | main_scheduler.py:263 | once due, a calibration stays due at every later time until one is recorded |
| Discovery.LookupsUntilFound | main_scheduler.py:61-78 | starting below the limit, the number of lookups made is above the start and at most the limit |
| Discovery.LookupsUntilFoundSpec | main_scheduler.py:61-78 | the lookups made: all but the last fail, and the last succeeds unless the limit was reached |
| Discovery.LookupsUntilFoundUnique | main_scheduler.py:61-78 | any count with those properties is the number of lookups made |
| Discovery.AllLookupsFailed | main_scheduler.py:77-78 | the last lookup made failed exactly when every allowed lookup fails |
| Discovery.FilterWheelCycleOnce | main_scheduler.py:84-114 | filter-wheel discovery sends lookups and at most one power cycle (off, then on) of the control port, right after a failed first lookup |
| Discovery.FilterWheelEventsPower | main_scheduler.py:84-114 | after filter-wheel discovery the control port is on exactly when it was cycled, and no other port changes |
| Discovery.DiscoverSkyAlert | main_scheduler.py:61-78 | at most 6 lookups; stops at the first success; the address is the last lookup's answer; no address only after all 6 lookups |
| Discovery.DiscoverFilterWheel | main_scheduler.py:81-114 | at most 7 lookups; stops at the first success; the address (with a slash only on the first lookup) is the last lookup's answer; no address only after all 7; serial fallback iff no address; the commands sent |
| Hardware.UntouchedKeepsState | main_scheduler.py:47-59 | commands that never switch a port leave its state as it was |
| Hardware.LastCommandedAppend | main_scheduler.py:47-59 | after a trace is extended, a port is in the state the extension last commanded, or as before when the extension does not switch it |
| Hardware.NoPowerKeepsState | main_scheduler.py:152-160 | commands without power switching change no port's state |
| Hardware.NoPowerConcat | main_scheduler.py:223-283 | two runs of commands without power switching, one after the other, have none |
| Hardware.Repeat | main_scheduler.py:290-291 | n copies of a command: length n, every element the command |
| Lifecycle.PowerDownState | main_scheduler.py:298-301 | the power-down sequence on its own switches exactly the Andor, SkyScanner, laser and filter-wheel ports, off |
| Lifecycle.PowerDownLeavesSafe | main_scheduler.py:297-301 | whatever came before, and whatever non-power commands come between, the power down leaves the four ports off and every other port as it was |
| Lifecycle.PowerOffAllState | main_scheduler.py:298-301 | switching a list of ports off, one by one, leaves exactly the listed ports off and every other port never commanded |
| Lifecycle.TeardownsEndWithPowerDown | main_scheduler.py:285-301 | the normal, interrupt and fault teardowns each end with the four power-offs in order, with no other power command |
| Lifecycle.EveryTeardownLeavesSafe | main_scheduler.py:137-313 | from any state of the run, each of the three teardowns (the interrupt handler at 137-148, the normal end at 285-301, the fault handler at 305-313) leaves the four ports off and every other port, the cloud-sensor and filter-wheel-control ports included, unchanged |
| Lifecycle.NormalTeardownLeavesSafe | main_scheduler.py:285-301 | from any state of the run, the normal end leaves the four ports off and every other port as it was |
| Lifecycle.WarmUp | main_scheduler.py:289-292 | the poll makes an odd number of reads; the last guard read is at least -20 C and every earlier guard read is below it |
| Plan.FeedbackDrivesNextExposure | main_scheduler.py:237-257 | a first exposure uses the default; after it measures a positive intensity, the next exposure is the damped step from the default, capped |
| Plan.PassPrefix | main_scheduler.py:208-212 | an entry begun with index i was preceded by entries 0 .. i-1 of the same pass, in order |
| Plan.PassesExtend | main_scheduler.py:208-212 | appending one pass, from entry 0 in plan order, keeps the pass structure |
| Plan.PassesFromFirstAt | main_scheduler.py:208-212 | in the visit log, every visit is to entry 0 or to the entry after the one visited just before it, and within the plan |
| Plan.ConsecutiveSingle | main_scheduler.py:214-283 | a visit that makes the next moon-angle query and finds the laser time and image count as they were is a consecutive log of one |
| Plan.ConsecutiveAppend | main_scheduler.py:208-283 | two consecutive runs of visits, the second starting at the moon-angle query, laser time and image count the first ended on, and later on the clock, make one consecutive run, which ends where the second ended |
| Plan.FlattenAppend | main_scheduler.py:208-283 | the commands of two runs of visits are the first run's commands followed by the second's |
| Plan.EntryAfterPass | main_scheduler.py:209-257 | after one pass, an entry the pass reached is as that visit left it, and every other entry as it was before the pass |
| Plan.BeforesFollowExtend | main_scheduler.py:209-257 | a pass whose visits start from the plan as the earlier visits left it keeps "each visit starts from its entry as last left" true of the whole log |
| Plan.NightLogAppend | main_scheduler.py:208-211 | two logs whose visits began before sunrise within consecutive ranges of clock positions make one log over the joined range |
| Plan.PassLogSnoc | main_scheduler.py:209-257 | a visit to the next entry, begun before sunrise from that entry as the pass began with it, extends a pass |
| Plan.PassResultSnoc | main_scheduler.py:256-257 | the plan after a pass extended by one visit is the plan after the pass with that entry replaced by the visit's result |
| Plan.NightResultAppend | main_scheduler.py:208-257 | the plan after the log and one more pass is the plan after the log, updated by the pass |
| Plan.PassStep | main_scheduler.py:209-283 | one more visit keeps every fact of the pass: pass order, before-sunrise, consecutive readings, the plan and the commands |
| Plan.NightSameTarget | main_scheduler.py:256-257 | over the whole night an entry keeps its location, filter, tag, desired intensity and default exposure; only the feedback fields change |
| Scheduler.SetupCommandsNoPower | main_scheduler.py:152-198 | housekeeping and the initial images switch no relay port |
| Scheduler.EntryCommandsNoPower | main_scheduler.py:223-283 | exposing an entry and the laser calibration switch no relay port |
| Scheduler.AllVisitedAt | main_scheduler.py:213-283 | every visit of a log of visits did what the loop body does with its readings |
| Scheduler.AllVisitedAppend | main_scheduler.py:208-283 | two logs of visits that each did what the loop body does make one |
| Scheduler.VisitsNoPower | main_scheduler.py:208-283 | the commands of the night's visits switch no relay port |
| Scheduler.NightRunsSnoc | main_scheduler.py:208-283 | a pass done right after a check that read at most sunrise extends the night's passes; the loop then stands where the pass left it, and the night's commands grow by the pass's |
| Scheduler.NightAllVisited | main_scheduler.py:208-283 | every visit of the night, over all passes, did what the loop body does with its readings |
| Scheduler.NightCounters | main_scheduler.py:214-283 | the night's visits, over all passes, made consecutive moon-angle queries, each starting from the image count and laser time the visit before left; the loop's counters and laser time are those the last visit left |
| Scheduler.NightClock | main_scheduler.py:208-211 | every visit of the night was begun on a reading before sunrise, after the first check and before the last one, and kept its entry's target; the checks move forward |
| Scheduler.NightPlan | main_scheduler.py:208-257 | the night's visits form passes that each start from entry 0 in plan order; each visit starts from its entry as the visits before it left it; the plan is as the last visit to each entry left it |
| Scheduler.NightKeepsTargets | main_scheduler.py:208-283 | over the night the visits switch no relay port, and every plan entry keeps its location, filter, tag, desired intensity and default exposure |
| Scheduler.Controller.PowerUp | main_scheduler.py:47-59 | the four instrument ports are switched on in order, then the cloud sensor is power cycled |
| Scheduler.Controller.DiscoverDevices | main_scheduler.py:61-116 | each address becomes the URL of the address the last lookup found (the filter wheel's with a slash only after a first-lookup success), and stays as configured when every lookup fails; the filter wheel is looked up only when in use; the serial flag is set iff a filter wheel is in use and all 7 lookups fail; the trace grows by exactly the lookups and the power cycle sent |
| Scheduler.Controller.DiscoveryPower | main_scheduler.py:47-114 | after power-up and discovery the cloud sensor is on, the control port is on iff it was cycled (otherwise unchanged), and no other port changes |
| Scheduler.Controller.Housekeeping | main_scheduler.py:123-161 | opens the filter wheel on the link discovery chose, homes the scanner and the wheel, sets up and cools the camera, switching no port |
| Scheduler.Controller.Startup | main_scheduler.py:47-161 | the trace grows by exactly power-up, discovery and housekeeping; the addresses discovery found; the filter-wheel link as discovery chose; the cloud sensor ends on; the control port ends on iff cycled, otherwise as before; every other port as power-up left it |
| Scheduler.Controller.InitialCalibration | main_scheduler.py:179-204 | bias, dark and laser images iff the clock reads before sunset + 10 min; on both branches, with an interval set, `laser_lasttime` is a fresh reading |
| Scheduler.Controller.ObserveEntry | main_scheduler.py:214-283 | moon angle at or under the threshold: nothing changes; otherwise move, filter, expose with the feedback-law time, write the feedback into this entry only, and calibrate with the laser iff due, resetting its clock |
| Scheduler.Controller.VisitEntry | main_scheduler.py:213-283 | one entry begun on the clock reading just taken: the visit record holds that reading and position, the moon-angle query, image count and laser time it started from, the entry before and after; the plan changes at that entry only; the trace grows by the visit's commands, none of them a power command |
| Scheduler.Controller.RunPass | main_scheduler.py:209-283 | one pass begun right after a check: the visits are entries 0, 1, 2 ... of the plan in order; the first is begun on the reading right after the check and each later one on the reading right after the visit before; each on a reading before sunrise and doing what the loop body does with consecutive moon, image and laser readings; the pass is cut short exactly when the reading taken for the next entry is at or after sunrise; the clock position, counters, laser time and plan are where the visits left them; the trace grows by exactly the visits' commands |
| Scheduler.Controller.NightPass | main_scheduler.py:208-283 | one iteration of the night loop after a check that read at most sunrise: exactly one pass, as RunPass describes it, is appended to the night's passes, then the next check reads the clock; the loop state and the trace advance accordingly |
| Scheduler.Controller.RunNight | main_scheduler.py:208-283 | the night loop from its first check: each pass is done right after a check that read at most sunrise, each check right after the pass before it, and the loop stops at the first check that reads after sunrise; the counters, laser time and plan are where the last pass left them; the trace grows by exactly the visits' commands |
| Scheduler.Controller.FinishNight | main_scheduler.py:285-301 | park, cooler off, a warm-up poll that stops at the first guard read at or above -20 C (every earlier guard read is below it), camera shut down, four ports off |
| Scheduler.Controller.Interrupt | main_scheduler.py:137-148 | the handler's commands; the four ports end off; every other port keeps its state |
| Scheduler.Controller.Fault | main_scheduler.py:305-313 | only the four power-offs; the four ports end off; every other port keeps its state |
| Scheduler.Controller.ObserveNight | main_scheduler.py:178-283 | initial images iff the first reading is before sunset + 10 min; then the night loop, as in RunNight, from the laser time seeded by the next reading; no port switched |
| Scheduler.Controller.Night | main_scheduler.py:178-301 | once the start time has come: initial images iff the first reading is before sunset + 10 min; then the night loop, as in RunNight, from the laser time seeded by the next reading; then the normal teardown, its warm-up poll stopping at the first warm guard read; the four ports end off and the others as before |
| Scheduler.Controller.Run | main_scheduler.py:47-303 | a whole night: the trace is startup, the initial images iff in the grace window, the night's visits and the normal teardown; the discovered addresses, the serial fallback flag and the filter-wheel link discovery chose; the night loop and the warm-up poll as in Night; the four ports end off; the cloud sensor ends on; the control port ends on iff cycled |

## Left out

- The image intensity metric (crop, box filter, percentiles, cosine of the zenith angle, 251-254) is floating-point array numerics over library calls. The intensity of each sky image is a supplied input.
- Sunrise, sunset, the housekeeping time and the moon angle (38-45, 214) come from astronomy library calls. They are inputs: `sunrise` and `sunset` are constants of the controller, and the moon angle is a supplied function of the query number.
- The device drivers (power relay, sky scanner, filter wheel, camera, laser shutter, SkyAlert, the image helper and the MAC-to-IP lookup) appear only as the commands sent to them and the answers they supply. Building a new relay client (142, 297, 309) is treated as sending no command.
- `sleep`, logging, log-file setup, the data-directory creation (168-173) and the commented-out email are left out: they affect neither the commands nor the decisions. The `get_world_coords` queries (187, 227, 271) only feed log lines and are not in the trace.
- When the interrupt signal arrives is not modelled (149). `Scheduler.Controller.Interrupt` can be applied to any state. A signal before the handler is registered at 149 ends the script without any power down; the model does not capture this.
- The exception path covers only the power down (305-313). Where an exception is raised is not modelled, so `Scheduler.Controller.Fault` applies to any state.
- A missing `laser_timedelta` in the night loop is not modelled: line 263 would raise there. `ObserveEntry`, `RunPass`, `NightPass`, `RunNight`, `ObserveNight`, `Night` and `Run` require a laser interval. `InitialCalibration` handles both cases.
- Scheduler.Controller.RunNight: termination relies on the supplied clock readings ending after sunrise. On the real clock this holds only because time advances.
- Lifecycle.WarmUp: the poll ends because the supplied temperatures end at or above -20 C. On the real camera this depends on the hardware.
- Configuration loading and the observation schedule's file format (11-12) are not modelled. The configuration is a `Scheduler.Config` value and the plan a sequence of `Plan.Observation`.
- Python floats are modelled as exact `real`s: the exposure law, intensities, angles and temperatures have no rounding, NaN or infinity.
- The waits until 30 minutes before housekeeping (45), until housekeeping (120) and until the start time (165) are not modelled: the supplied clock is read only from the first `datetime.now()` call after log-file setup (179) on. `Scheduler.Controller.Night` and `Scheduler.Controller.Run` do not require that reading to be at or after sunset.
