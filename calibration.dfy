/** When a laser calibration image is due: strictly more than the
    calibration interval has elapsed since the last one. Times are integer
    seconds. */
module Calibration {

  function LaserDue(now: int, lastCalibration: int, interval: int): bool
  {
    now - lastCalibration > interval
  }

  /** Recording a calibration at `now` makes an immediate re-check false
      whenever the interval is not negative. */
  lemma RecheckAfterRecording(now: int, interval: int)
    requires interval >= 0
    ensures !LaserDue(now, now, interval)
  {
  }

  /** The check is strict: exactly one interval after the last calibration
      is not yet due, one second later is. */
  lemma DueOnlyStrictlyAfter(lastCalibration: int, interval: int)
    ensures !LaserDue(lastCalibration + interval, lastCalibration, interval)
    ensures LaserDue(lastCalibration + interval + 1, lastCalibration, interval)
  {
  }

  /** Once due, a calibration stays due at every later time until one is
      recorded. */
  lemma StaysDue(now: int, later: int, lastCalibration: int, interval: int)
    requires LaserDue(now, lastCalibration, interval) && now <= later
    ensures LaserDue(later, lastCalibration, interval)
  {
  }
}
