/** The exposure-time feedback law of the observation loop: a plan entry
    that was never exposed uses its default exposure; otherwise the last
    exposure is scaled by a damped proportional step toward the wanted
    intensity and capped at the maximum exposure time. */
module Exposure {

  function Min(a: real, b: real): (m: real)
    ensures m <= a && m <= b && (m == a || m == b)
  {
    if a <= b then a else b
  }

  /** The uncapped damped step: half of the last exposure times
      (1 + desired / last intensity). */
  function DampedStep(lastIntensity: real, lastExpTime: real, desiredIntensity: real): real
    requires lastIntensity != 0.0
  {
    0.5 * lastExpTime * (1.0 + desiredIntensity / lastIntensity)
  }

  /** The exposure time chosen for a plan entry from its feedback fields. */
  function ExposureTime(lastIntensity: real, lastExpTime: real, desiredIntensity: real,
                        defaultExposureTime: real, maxExposureTime: real): real
  {
    if lastIntensity == 0.0 || lastExpTime == 0.0 then defaultExposureTime
    else Min(DampedStep(lastIntensity, lastExpTime, desiredIntensity), maxExposureTime)
  }

  /** A never-exposed entry gets its default exposure, whatever the other
      fields and the cap are. */
  lemma DefaultWhenUnexposed(lastIntensity: real, lastExpTime: real, desiredIntensity: real,
                             defaultExposureTime: real, maxExposureTime: real)
    requires lastIntensity == 0.0 || lastExpTime == 0.0
    ensures ExposureTime(lastIntensity, lastExpTime, desiredIntensity,
                         defaultExposureTime, maxExposureTime) == defaultExposureTime
  {
  }

  /** Once exposed, the entry's exposure never exceeds the cap, and is the
      damped step unless that is above the cap. */
  lemma CappedWhenExposed(lastIntensity: real, lastExpTime: real, desiredIntensity: real,
                          defaultExposureTime: real, maxExposureTime: real)
    requires lastIntensity != 0.0 && lastExpTime != 0.0
    ensures var t := ExposureTime(lastIntensity, lastExpTime, desiredIntensity,
                                  defaultExposureTime, maxExposureTime);
            t <= maxExposureTime &&
            (t == maxExposureTime || t == DampedStep(lastIntensity, lastExpTime, desiredIntensity))
  {
  }

  /** The cap does not apply to the default branch: a default above the cap
      is used as it is. */
  lemma DefaultNotCapped()
    ensures ExposureTime(0.0, 0.0, 1000.0, 5.0, 4.0) == 5.0 > 4.0
  {
  }

  /** The damped step grows with the wanted intensity when the last
      exposure and intensity are positive. */
  lemma DampedStepMonotone(lastIntensity: real, lastExpTime: real, d1: real, d2: real)
    requires lastIntensity > 0.0 && lastExpTime > 0.0 && d1 <= d2
    ensures DampedStep(lastIntensity, lastExpTime, d1) <= DampedStep(lastIntensity, lastExpTime, d2)
  {
    var q1, q2 := d1 / lastIntensity, d2 / lastIntensity;
    assert q1 * lastIntensity == d1 && q2 * lastIntensity == d2;
    assert q1 <= q2;
    assert (1.0 + q1) * (0.5 * lastExpTime) <= (1.0 + q2) * (0.5 * lastExpTime);
  }

  /** With positive feedback fields the chosen exposure is non-decreasing in
      the wanted intensity. */
  lemma MonotoneInDesired(lastIntensity: real, lastExpTime: real, d1: real, d2: real,
                          defaultExposureTime: real, maxExposureTime: real)
    requires lastIntensity > 0.0 && lastExpTime > 0.0 && d1 <= d2
    ensures ExposureTime(lastIntensity, lastExpTime, d1, defaultExposureTime, maxExposureTime)
         <= ExposureTime(lastIntensity, lastExpTime, d2, defaultExposureTime, maxExposureTime)
  {
    DampedStepMonotone(lastIntensity, lastExpTime, d1, d2);
  }

  /** An entry that measured exactly its wanted intensity keeps its last
      exposure (within the cap): the law is at rest on target. */
  lemma SteadyOnTarget(intensity: real, lastExpTime: real,
                       defaultExposureTime: real, maxExposureTime: real)
    requires intensity > 0.0 && lastExpTime > 0.0
    ensures ExposureTime(intensity, lastExpTime, intensity, defaultExposureTime, maxExposureTime)
         == Min(lastExpTime, maxExposureTime)
  {
    assert intensity / intensity == 1.0;
  }

  /** A too-dark entry gets a longer exposure (unless capped), a too-bright
      one a shorter one, and one step never drops below half the last
      exposure (unless capped). */
  lemma MovesTowardTarget(lastIntensity: real, lastExpTime: real, desiredIntensity: real,
                          defaultExposureTime: real, maxExposureTime: real)
    requires lastIntensity > 0.0 && lastExpTime > 0.0 && desiredIntensity >= 0.0
    ensures var t := ExposureTime(lastIntensity, lastExpTime, desiredIntensity,
                                  defaultExposureTime, maxExposureTime);
            (lastIntensity < desiredIntensity ==> t == maxExposureTime || t > lastExpTime) &&
            (lastIntensity > desiredIntensity ==> t < lastExpTime) &&
            t >= Min(0.5 * lastExpTime, maxExposureTime)
  {
    var q := desiredIntensity / lastIntensity;
    assert q * lastIntensity == desiredIntensity;
    assert q >= 0.0;
    if lastIntensity < desiredIntensity {
      assert q > 1.0;
      assert DampedStep(lastIntensity, lastExpTime, desiredIntensity) == 0.5 * lastExpTime * (1.0 + q);
      assert 0.5 * lastExpTime * (1.0 + q) > 0.5 * lastExpTime * 2.0;
    }
    if lastIntensity > desiredIntensity {
      assert q < 1.0;
      assert 0.5 * lastExpTime * (1.0 + q) < 0.5 * lastExpTime * 2.0;
    }
    assert 0.5 * lastExpTime * (1.0 + q) >= 0.5 * lastExpTime;
  }
}
