/**
 * The wall clock's hands (class `C` in TimeManager.cs).  Each frame the hands are
 * rotated to the current hour, minute and second; the engine rotation itself is not
 * modelled, only the angle (in whole degrees) handed to it.
 */
module TimeManager {

  /** The components of `DateTime.Now` the clock reads; .NET keeps them in these ranges. */
  type Hour = h: int | 0 <= h < 24
  type Minute = m: int | 0 <= m < 60
  type Second = s: int | 0 <= s < 60

  /** The hour hand: twelve hours make a full turn. */
  function HourAngle(hour: Hour): (angle: int)
    ensures 0 <= angle <= 330 && angle % 30 == 0
    ensures angle * 12 == (hour % 12) * 360
  {
    (hour % 12) * 30
  }

  /** The minute hand: sixty minutes make a full turn. */
  function MinuteAngle(minute: Minute): (angle: int)
    ensures 0 <= angle <= 354 && angle % 6 == 0
    ensures angle * 60 == minute * 360
  {
    minute * 6
  }

  /** The second hand: sixty seconds make a full turn. */
  function SecondAngle(second: Second): (angle: int)
    ensures 0 <= angle <= 354 && angle % 6 == 0
    ensures angle * 60 == second * 360
  {
    second * 6
  }

  /** Hours h and h + 12 put the hour hand in the same place. */
  lemma HourHandHasPeriodTwelve(h: Hour)
    requires h < 12
    ensures HourAngle(h) == HourAngle(h + 12)
  {
  }

  /** Every hand sits on a multiple of six degrees (a minute mark of the dial). */
  lemma HandsOnMinuteMarks(h: Hour, m: Minute, s: Second)
    ensures HourAngle(h) % 6 == 0 && MinuteAngle(m) % 6 == 0 && SecondAngle(s) % 6 == 0
  {
  }

  /** Distinct minutes give distinct angles: the minute hand never shares a dial mark. */
  lemma MinuteAngleInjective(m1: Minute, m2: Minute)
    requires MinuteAngle(m1) == MinuteAngle(m2)
    ensures m1 == m2
  {
  }

  /** Distinct seconds give distinct angles: the second hand never shares a dial mark. */
  lemma SecondAngleInjective(s1: Second, s2: Second)
    requires SecondAngle(s1) == SecondAngle(s2)
    ensures s1 == s2
  {
  }
}
