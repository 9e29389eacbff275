/**
 * Right ascension given in hours, minutes and seconds, converted to radians.
 * One hour of right ascension is 1/24 of a turn.
 */
module Utils {
  import opened Wrappers

  /** numpy's `np.pi`, the double nearest to pi, as a decimal. */
  const Pi: real := 3.141592653589793

  /** Calling with minutes but no seconds divides None by 43200: a TypeError. */
  datatype ConversionError = MissingSeconds

  /**
   * hour_angle_to_rad(h, m=None, s=None).  With no minutes the seconds are
   * not looked at.
   */
  function HourAngleToRad(h: real, m: Option<real>, s: Option<real>): (r: Result<real, ConversionError>)
    ensures m.None? ==> r == Success(Pi * h / 12.0)
    ensures m.Some? && s.None? ==> r == Failure(MissingSeconds)
    ensures m.Some? && s.Some? ==> r == Success(Pi * (3600.0 * h + 60.0 * m.value + s.value) / 43200.0)
  {
    match m
    case None => Success(Pi * h / 12.0)
    case Some(mins) =>
      match s
      case None => Failure(MissingSeconds)
      case Some(secs) => Success(Pi * (h / 12.0 + mins / 720.0 + secs / 43200.0))
  }

  /** Twenty-four hours are a full turn. */
  lemma FullTurn()
    ensures HourAngleToRad(24.0, None, None) == Success(2.0 * Pi)
  {
  }

  /** Zero minutes and zero seconds give the hours-only result. */
  lemma ZeroMinutesSeconds(h: real)
    ensures HourAngleToRad(h, Some(0.0), Some(0.0)) == HourAngleToRad(h, None, None)
  {
  }

  /** The three-argument form is the hours-only form of h + m/60 + s/3600. */
  lemma TotalHours(h: real, m: real, s: real)
    ensures HourAngleToRad(h, Some(m), Some(s)) == HourAngleToRad(h + m / 60.0 + s / 3600.0, None, None)
  {
  }

  /** Sixty minutes are one hour. */
  lemma SixtyMinutes(h: real, m: real, s: real)
    ensures HourAngleToRad(h, Some(m + 60.0), Some(s)) == HourAngleToRad(h + 1.0, Some(m), Some(s))
  {
  }

  /** Sixty seconds are one minute. */
  lemma SixtySeconds(h: real, m: real, s: real)
    ensures HourAngleToRad(h, Some(m), Some(s + 60.0)) == HourAngleToRad(h, Some(m + 1.0), Some(s))
  {
  }

  /** The conversion is additive across its arguments. */
  lemma Additive(h: real, m: real, s: real, h': real, m': real, s': real)
    ensures var r, r' := HourAngleToRad(h, Some(m), Some(s)), HourAngleToRad(h', Some(m'), Some(s'));
      HourAngleToRad(h + h', Some(m + m'), Some(s + s')) == Success(r.value + r'.value)
  {
  }
}
