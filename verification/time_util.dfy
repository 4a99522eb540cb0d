/**
 * `Time`: a wall-clock instant in epoch milliseconds, used as the key of the
 * home screen's log map, and its `hh:mm` rendering.
 */
module TimeUtil {
  import opened Text
  import opened CivilTime

  /** `data class Time(val time: Long)`: equality is equality of the millis. */
  datatype Time = Time(time: int)

  /** `Time.now()` / `Time()`: the clock reading, supplied as a parameter. */
  function Now(clockMillis: int): (t: Time)
    ensures t.time == clockMillis
  {
    Time(clockMillis)
  }

  /** `hourAndMin()`: `hh:mm` of the instant at the device's offset. */
  function HourAndMin(t: Time, offset: UtcOffset): string {
    FormatHourMinute12(ToLocal(MillisToSeconds(t.time), offset))
  }

  /**
   * `hourAndMin()` is five characters: an hour 01..12 on the 12-hour clock
   * agreeing with the local hour modulo 12, a colon, a minute 00..59 that is
   * the local minute.
   */
  lemma HourAndMinShape(t: Time, offset: UtcOffset)
    ensures var r := HourAndMin(t, offset);
            var local := ToLocal(MillisToSeconds(t.time), offset);
            && |r| == 5 && r[2] == ':'
            && AllDigits(r[0..2]) && 1 <= DigitsValue(r[0..2]) <= 12
            && DigitsValue(r[0..2]) % 12 == Hour(local) % 12
            && AllDigits(r[3..5]) && DigitsValue(r[3..5]) == Minute(local) < 60
  {
    HourMinute12ReadsBack(ToLocal(MillisToSeconds(t.time), offset));
  }

  /** Equal keys in the log map are exactly equal clock readings. */
  lemma TimeKeyIsMillis(t: Time, u: Time)
    ensures t == u <==> t.time == u.time
  {
  }
}
