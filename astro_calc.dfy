/**
 * Angle and unit helpers: period reduction, degree/radian and km/AU conversion,
 * and the splitting of an angle into hours:minutes:seconds or degrees:arcminutes:arcseconds.
 */
module AstroCalc {

  /** The double that `atan(1) * 4` yields; the trigonometric call itself is not modelled. */
  const Pi: real := 3.141592653589793
  const DegsPerRad: real := 180.0 / Pi
  const RadsPerDeg: real := Pi / 180.0

  const SecsPerDay: real := 86400.0
  const SecsPerHour: real := 3600.0

  /** 1 AU = 149597870.700 km exactly. */
  const KmPerAu: real := 149597870.7
  const AuPerKm: real := 1.0 / KmPerAu

  function Abs(x: real): (r: real)
    ensures r >= 0.0 && (r == x || r == -x)
  {
    if x < 0.0 then -x else x
  }

  /** A fraction of a positive period stays below the period. */
  lemma ScaleFraction(p: real, t: real)
    requires p > 0.0 && 0.0 <= t < 1.0
    ensures 0.0 <= p * t < p
  {
    assert p * t < p * 1.0;
  }

  /** A value in `[0, p)` divided by `p` lies in `[0, 1)`. */
  lemma FractionBelowOne(w: real, p: real)
    requires p > 0.0 && 0.0 <= w < p
    ensures 0.0 <= w / p < 1.0
  {
    var t := w / p;
    assert t * p == w;
    if t >= 1.0 {
      AtLeastOneTimes(t, p);
    }
  }

  /** A positive number scaled by at least one is no smaller. */
  lemma AtLeastOneTimes(t: real, p: real)
    requires p > 0.0 && t >= 1.0
    ensures t * p >= p
  {
    assert t * p == p + (t - 1.0) * p;
    assert (t - 1.0) * p >= 0.0;
  }

  /** Reduces `val` into one period: `period * (val/period - floor(val/period))`. */
  function Normalize(val: real, period: real): (r: real)
    requires period != 0.0
    ensures period > 0.0 ==> 0.0 <= r < period
  {
    var quot := val / period;
    var frac := quot - quot.Floor as real;
    if period > 0.0 then ScaleFraction(period, frac); period * frac else period * frac
  }

  /** Normalize(val, p) is val minus a whole number of periods. */
  lemma NormalizeSubtractsPeriods(val: real, period: real)
    requires period != 0.0
    ensures Normalize(val, period) == val - ((val / period).Floor as real) * period
  {
    var quot := val / period;
    assert period * quot == val;
  }

  /**
   * For a positive period, Normalize(val, p) is THE value in [0, p) that differs from val
   * by a whole number of periods.
   */
  lemma NormalizeUnique(val: real, period: real, k: int, w: real)
    requires period > 0.0
    requires 0.0 <= w < period
    requires w == val - (k as real) * period
    ensures Normalize(val, period) == w
  {
    var quot := val / period;
    assert quot == w / period + k as real by {
      assert val == w + (k as real) * period;
    }
    FractionBelowOne(w, period);
    assert quot.Floor == k;
    NormalizeSubtractsPeriods(val, period);
  }

  /** Adding a whole number of periods does not change the normalized value. */
  lemma NormalizePeriodic(val: real, period: real, k: int)
    requires period != 0.0
    ensures Normalize(val + (k as real) * period, period) == Normalize(val, period)
  {
    var q := val / period;
    var q' := (val + (k as real) * period) / period;
    assert q' == q + k as real;
    assert q'.Floor == q.Floor + k;
  }

  /** Normalizing twice is the same as normalizing once. */
  lemma NormalizeIdempotent(val: real, period: real)
    requires period > 0.0
    ensures Normalize(Normalize(val, period), period) == Normalize(val, period)
  {
    var r := Normalize(val, period);
    NormalizeUnique(r, period, 0, r);
  }

  /** Angle in degrees reduced to 0 <= d < 360. */
  function NormalizeDegrees(angle: real): (r: real)
    ensures 0.0 <= r < 360.0
    ensures r == Normalize(angle, 360.0)
  {
    Normalize(angle, 360.0)
  }

  /** Radians to degrees; converting back gives the angle again. */
  function ToDegrees(rads: real): (r: real)
    ensures ToRadians(r) == rads
    ensures rads == Pi ==> r == 180.0
  {
    rads * DegsPerRad
  }

  /** Degrees to radians: 180 degrees are pi, and scaling back by 180/pi gives the angle. */
  function ToRadians(degs: real): (r: real)
    ensures r * DegsPerRad == degs
    ensures degs == 180.0 ==> r == Pi
  {
    degs * RadsPerDeg
  }

  lemma DegreesRadiansInverse(x: real)
    ensures ToRadians(ToDegrees(x)) == x
    ensures ToDegrees(ToRadians(x)) == x
  {
  }

  /** Kilometres to astronomical units; converting back gives the distance again. */
  function KmToAu(km: real): (r: real)
    ensures AuToKm(r) == km
    ensures km == KmPerAu ==> r == 1.0
  {
    km * AuPerKm
  }

  /** Astronomical units to kilometres: one AU is 149597870.7 km, and scaling back gives the distance. */
  function AuToKm(au: real): (r: real)
    ensures r * AuPerKm == au
    ensures au == 1.0 ==> r == KmPerAu
  {
    au * KmPerAu
  }

  lemma KmAuInverse(x: real)
    ensures AuToKm(KmToAu(x)) == x
    ensures KmToAu(AuToKm(x)) == x
  {
  }

  /** The (int, int, double) triple of hours/degrees, minutes and seconds. */
  datatype Triple = Triple(whole: int, minutes: int, seconds: real)

  /**
   * Converts an angle in degrees to hours, minutes and seconds of time (15 degrees per hour).
   * The sign is carried by the hours field only.
   */
  function DegToHms(degrees: real): (r: Triple)
    ensures 0 <= r.minutes < 60
    ensures 0.0 <= r.seconds < 60.0
    ensures r.whole == (if degrees < 0.0 then -1 else 1) * (Abs(degrees) / 15.0).Floor
  {
    var sign := if degrees < 0.0 then -1 else 1;
    var newDegrees := if degrees < 0.0 then -degrees else degrees;
    var totalSeconds := newDegrees / 360.0 * SecsPerDay;
    var actualHours := totalSeconds / SecsPerHour;
    var hours := actualHours.Floor;
    var hourFraction := actualHours - hours as real;
    var actualMinutes := 60.0 * hourFraction;
    var minutes := actualMinutes.Floor;
    var seconds := 60.0 * (actualMinutes - minutes as real);
    Triple(hours * sign, minutes, seconds)
  }

  /** Decimal hours to hours, minutes and seconds. */
  function HmsDecimalToHms(hmsDecimal: real): (r: Triple)
    ensures r.whole == (if hmsDecimal < 0.0 then -1 else 1) * Abs(hmsDecimal).Floor
    ensures 0 <= r.minutes < 60 && 0.0 <= r.seconds < 60.0
  {
    DegToHms(15.0 * hmsDecimal)
  }

  /**
   * Hours, minutes and seconds of time back to degrees. For a field-wise valid triple with
   * non-negative hours the angle lies in that hour's 15-degree band.
   */
  function HmsToDeg(hms: Triple): (r: real)
    ensures hms.whole >= 0 && 0 <= hms.minutes < 60 && 0.0 <= hms.seconds < 60.0 ==>
              15.0 * (hms.whole as real) <= r < 15.0 * (hms.whole as real + 1.0)
  {
    (hms.whole as real * 15.0) + (15.0 * (hms.minutes as real / 60.0)) + (15.0 * (hms.seconds / 3600.0))
  }

  /** Splitting a non-negative angle into h:m:s and joining it again gives the angle back. */
  lemma HmsRoundTrip(d: real)
    requires d >= 0.0
    ensures HmsToDeg(DegToHms(d)) == d
  {
  }

  /** Between -15 and 0 degrees the hours field is 0, so the sign is lost: joining gives |d|. */
  lemma HmsSignLost(d: real)
    requires -15.0 < d < 0.0
    ensures DegToHms(d).whole == 0
    ensures HmsToDeg(DegToHms(d)) == -d
  {
  }

  /** Converts degrees to degrees (truncated toward zero), arcminutes and arcseconds. */
  function DegToDms(degrees: real): (r: Triple)
    ensures degrees >= 0.0 ==> r.whole as real <= degrees < r.whole as real + 1.0
    ensures degrees < 0.0 ==> r.whole as real - 1.0 < degrees <= r.whole as real
    ensures 0 <= r.minutes < 60
    ensures 0.0 <= r.seconds < 60.0
  {
    var truncatedDegrees := if degrees > 0.0 then degrees.Floor else -((-degrees).Floor);
    var actualArcminutes := Abs((degrees - truncatedDegrees as real) * 60.0);
    var arcminutes := actualArcminutes.Floor;
    var arcseconds := 60.0 * (actualArcminutes - arcminutes as real);
    Triple(truncatedDegrees, arcminutes, arcseconds)
  }

  /**
   * Degrees, arcminutes and arcseconds back to degrees; the sign of the degrees field is the
   * sign of the angle, and for valid minutes and seconds the magnitude lies in that degree.
   */
  function DmsToDeg(dms: Triple): (r: real)
    ensures 0 <= dms.minutes && 0.0 <= dms.seconds ==> (r < 0.0 <==> dms.whole < 0)
    ensures 0 <= dms.minutes < 60 && 0.0 <= dms.seconds < 60.0 ==>
              Abs(dms.whole as real) <= Abs(r) < Abs(dms.whole as real) + 1.0
  {
    var sign := if dms.whole < 0 then -1.0 else 1.0;
    var absDegrees := if dms.whole < 0 then -(dms.whole as real) else dms.whole as real;
    sign * (absDegrees + (dms.minutes as real / 60.0) + (dms.seconds / 3600.0))
  }

  /**
   * Splitting into d:m:s and joining again gives the angle back, except strictly between
   * -1 and 0 degrees, where the degrees field is 0 and the sign is lost.
   */
  lemma DmsRoundTrip(d: real)
    ensures DmsToDeg(DegToDms(d)) == (if -1.0 < d < 0.0 then -d else d)
  {
  }

  /**
   * Field width that `iid_to_str` gives the first (hours or degrees) field: 3 below -9 or
   * above 99, otherwise 2. The branches for 4 and 5 digits are never reached, because the
   * test for a wider field comes first.
   */
  function IidWidth(arg0: int): (r: int)
    ensures r == (if arg0 < -9 || arg0 > 99 then 3 else 2)
  {
    if arg0 < 0 then
      if arg0 < -9 then 3
      else if arg0 < -99 then 4
      else if arg0 < -999 then 5
      else 2
    else
      if arg0 > 99 then 3
      else if arg0 > 999 then 4
      else if arg0 > 9999 then 5
      else 2
  }
}
