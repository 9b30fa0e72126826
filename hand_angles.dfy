/**
 * The rotation of the three hands, in degrees clockwise from 12 o'clock,
 * computed from one time sample. Angles are exact rationals (`real`).
 */
module HandAngles {

  /** Hour hand: 30 degrees per hour of the dial plus half a degree per minute. */
  function HourAngle(hours: nat, minutes: nat): (a: real)
    ensures a == 30.0 * (hours % 12) as real + minutes as real / 2.0
  {
    ((hours % 12) as real + minutes as real / 60.0) * 30.0
  }

  /** Minute hand: 6 degrees per minute plus a tenth of a degree per second. */
  function MinuteAngle(minutes: nat, seconds: nat): (a: real)
    ensures a == 6.0 * minutes as real + seconds as real / 10.0
  {
    (minutes as real + seconds as real / 60.0) * 6.0
  }

  /** Second hand: 6 degrees per second, jumping once per tick. */
  function SecondAngle(seconds: nat): (a: real)
    ensures a == (6 * seconds) as real
  {
    seconds as real * 6.0
  }

  lemma HourAngleRange(hours: nat, minutes: nat)
    requires minutes < 60
    ensures 0.0 <= HourAngle(hours, minutes) < 360.0
  {
  }

  /** The hour hand points the same way at hour h and at hour h + 12. */
  lemma HourAngleHalfDay(hours: nat, minutes: nat)
    ensures HourAngle(hours + 12, minutes) == HourAngle(hours, minutes)
  {
  }

  lemma HourAngleIncreasing(hours: nat, m1: nat, m2: nat)
    requires m1 < m2
    ensures HourAngle(hours, m1) < HourAngle(hours, m2)
  {
  }

  /**
   * The hour hand has no jump at the hour: minute 60 of hour h is minute 0
   * of hour h + 1, a full turn apart when the dial wraps from 11 to 12.
   */
  lemma HourHandContinuous(hours: nat)
    ensures HourAngle(hours, 60) == HourAngle(hours + 1, 0) + if hours % 12 == 11 then 360.0 else 0.0
  {
  }

  /** The hour hand turns a twelfth as far as the minute hand within an hour. */
  lemma HourFollowsMinute(hours: nat, minutes: nat)
    ensures HourAngle(hours, minutes) == HourAngle(hours, 0) + MinuteAngle(minutes, 0) / 12.0
  {
  }

  lemma MinuteAngleRange(minutes: nat, seconds: nat)
    requires minutes < 60 && seconds < 60
    ensures 0.0 <= MinuteAngle(minutes, seconds) < 360.0
  {
  }

  lemma MinuteAngleIncreasing(minutes: nat, s1: nat, s2: nat)
    requires s1 < s2
    ensures MinuteAngle(minutes, s1) < MinuteAngle(minutes, s2)
  {
  }

  /** The minute hand has no jump at the minute: second 60 of minute m is second 0 of minute m + 1. */
  lemma MinuteHandContinuous(minutes: nat)
    ensures MinuteAngle(minutes, 60) == MinuteAngle(minutes + 1, 0)
  {
  }

  /** The minute hand turns a sixtieth as far as the second hand within a minute. */
  lemma MinuteFollowsSecond(minutes: nat, seconds: nat)
    ensures MinuteAngle(minutes, seconds) == MinuteAngle(minutes, 0) + SecondAngle(seconds) / 60.0
  {
  }

  /** On a clock the second hand stops only at multiples of 6 degrees from 0 to 354. */
  lemma SecondAngleRange(seconds: nat)
    requires seconds < 60
    ensures 0.0 <= SecondAngle(seconds) <= 354.0
    ensures SecondAngle(seconds).Floor as real == SecondAngle(seconds)
    ensures SecondAngle(seconds).Floor % 6 == 0
  {
  }

  lemma HandAngleExamples()
    ensures HourAngle(3, 30) == 105.0
    ensures MinuteAngle(15, 30) == 93.0
    ensures SecondAngle(45) == 270.0
  {
  }
}
