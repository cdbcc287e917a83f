/**
 * Event finding over the astrometry: the classifier that names an event rise, set or
 * culmination from the local hour angle, local apparent sidereal time, the moon-phase
 * arithmetic, and the two searches that sample a time window with `zbrak`, refine each
 * bracket with `zbrent` and collect the instants. Every position the searches sample
 * (NOVAS `place`, `equ2hor`, `equ2ecl`, `sidereal_time`, vector angles and the
 * trigonometry of the apparent disc) comes in as a function parameter.
 */
module EventFinder {
  import opened Wrappers
  import AstroCalc
  import RootFinding

  /** The root tolerance of both searches, 100 times the double epsilon. */
  const FinderTolerance: real := RootFinding.Eps * 100.0

  /** How close to 0, 12 or 24 hours the hour angle must be to count as a culmination. */
  const BracketRange: real := 0.01

  /** The azimuth search always samples 31 * 4 slices. */
  const AzimuthSlices: int := 124

  /** The moon-phase search samples 120 slices. */
  const MoonSlices: int := 120

  // ---------------------------------------------------------------------------
  // Sidereal time

  /** An answer of NOVAS `sidereal_time`: its status code and Greenwich apparent sidereal time in hours. */
  datatype SiderealReading = SiderealReading(error: int, gast: real)

  /** Why `get_local_apparent_sidereal_time` throws. */
  datatype SiderealError = InvalidAccuracy | InvalidMethod | CioRaiFailed(code: int)

  /**
   * `get_local_apparent_sidereal_time`: a positive status becomes an error (1 accuracy,
   * 2 method, anything else the `cio_rai` code less 10); otherwise GAST plus the east
   * longitude in hours, brought back by at most one day in either direction.
   */
  function LocalSiderealTime(reading: SiderealReading, longitude: real): (r: Result<real, SiderealError>)
    ensures r.Failure? <==> reading.error > 0
    ensures reading.error == 1 ==> r == Failure(InvalidAccuracy)
    ensures reading.error == 2 ==> r == Failure(InvalidMethod)
    ensures reading.error > 2 ==> r == Failure(CioRaiFailed(reading.error - 10))
    ensures r.Success? ==> r.value - (reading.gast + longitude / 15.0) in {-24.0, 0.0, 24.0}
    ensures r.Success? ==> AstroCalc.Normalize(r.value, 24.0) == AstroCalc.Normalize(reading.gast + longitude / 15.0, 24.0)
  {
    if reading.error > 0 then
      if reading.error == 1 then Failure(InvalidAccuracy)
      else if reading.error == 2 then Failure(InvalidMethod)
      else Failure(CioRaiFailed(reading.error - 10))
    else
      var lst := reading.gast + longitude / 15.0;
      var down := if lst >= 24.0 then lst - 24.0 else lst;
      var up := if down < 0.0 then down + 24.0 else down;
      AstroCalc.NormalizePeriodic(up, 24.0, if lst >= 24.0 then 1 else if down < 0.0 then -1 else 0);
      Success(up)
  }

  /**
   * With GAST within a day and the longitude within half a turn, the local sidereal time is
   * their sum reduced into [0, 24).
   */
  lemma LocalSiderealTimeInDay(reading: SiderealReading, longitude: real)
    requires reading.error <= 0
    requires 0.0 <= reading.gast < 24.0 && -180.0 <= longitude <= 180.0
    ensures LocalSiderealTime(reading, longitude).Success?
    ensures LocalSiderealTime(reading, longitude).value == AstroCalc.Normalize(reading.gast + longitude / 15.0, 24.0)
    ensures 0.0 <= LocalSiderealTime(reading, longitude).value < 24.0
  {
    var lst := reading.gast + longitude / 15.0;
    if lst >= 24.0 {
      AstroCalc.NormalizeUnique(lst, 24.0, 1, lst - 24.0);
    } else if lst < 0.0 {
      AstroCalc.NormalizeUnique(lst, 24.0, -1, lst + 24.0);
    } else {
      AstroCalc.NormalizeUnique(lst, 24.0, 0, lst);
    }
  }

  // ---------------------------------------------------------------------------
  // Event classification

  /** `planet_event_type`. */
  datatype EventKind = Rise | UpperCulmination | Set | LowerCulmination

  /**
   * The test of `determine_planetary_event_type` on a local hour angle in hours. On the hour
   * angles `normalize` produces, [0, 24), the four kinds split the day into intervals: upper
   * culmination within 0.01 h of 0 or 24, lower culmination within 0.01 h of 12, rise in the
   * second half of the day, set in the first.
   */
  function ClassifyHourAngle(lha: real): (k: EventKind)
    ensures 0.0 <= lha < 24.0 ==> (k == UpperCulmination <==> lha < 0.01 || lha > 23.99)
    ensures 0.0 <= lha < 24.0 ==> (k == LowerCulmination <==> 11.99 < lha < 12.01)
    ensures 0.0 <= lha < 24.0 ==> (k == Rise <==> 12.01 <= lha <= 23.99)
    ensures 0.0 <= lha < 24.0 ==> (k == Set <==> 0.01 <= lha <= 11.99)
  {
    if AstroCalc.Abs(24.0 - lha) < BracketRange || AstroCalc.Abs(lha) < BracketRange then UpperCulmination
    else if AstroCalc.Abs(12.0 - lha) < BracketRange then LowerCulmination
    else if lha > 12.0 then Rise
    else Set
  }

  /**
   * `determine_planetary_event_type`: the kind of the event, from the local hour angle
   * `normalize(last - rar, 24)`; a failing sidereal-time request is passed on.
   */
  function DetermineEventType(reading: SiderealReading, longitude: real, rar: real): (r: Result<EventKind, SiderealError>)
    ensures r.Failure? <==> reading.error > 0
    ensures r.Failure? ==> LocalSiderealTime(reading, longitude) == Failure(r.error)
    ensures r.Success? ==> exists lha :: (0.0 <= lha < 24.0 && r.value == ClassifyHourAngle(lha)
      && AstroCalc.Normalize(lha, 24.0) == AstroCalc.Normalize(reading.gast + longitude / 15.0 - rar, 24.0))
  {
    match LocalSiderealTime(reading, longitude)
    case Failure(e) => Failure(e)
    case Success(last) =>
      var lha := AstroCalc.Normalize(last - rar, 24.0);
      SameHourAngle(last, reading.gast + longitude / 15.0, rar);
      AstroCalc.NormalizeIdempotent(last - rar, 24.0);
      Success(ClassifyHourAngle(lha))
  }

  /** Times equal modulo a day give hour angles equal modulo a day. */
  lemma SameHourAngle(last: real, sum: real, rar: real)
    requires AstroCalc.Normalize(last, 24.0) == AstroCalc.Normalize(sum, 24.0)
    ensures AstroCalc.Normalize(last - rar, 24.0) == AstroCalc.Normalize(sum - rar, 24.0)
  {
    AstroCalc.NormalizeSubtractsPeriods(last, 24.0);
    AstroCalc.NormalizeSubtractsPeriods(sum, 24.0);
    var k := (last / 24.0).Floor - (sum / 24.0).Floor;
    assert last - rar == (sum - rar) + (k as real) * 24.0;
    AstroCalc.NormalizePeriodic(sum - rar, 24.0, k);
  }

  // ---------------------------------------------------------------------------
  // Moon phase

  /** `moon_phase`, in the order of its underlying values 0 to 7. */
  datatype MoonPhase = FullMoon | WaxingGibbous | FirstQuarter | WaxingCrescent
                     | NewMoon | WaningCrescent | LastQuarter | WaningGibbous

  /** The `static_cast` from a phase index. */
  function PhaseOfIndex(i: int): (p: Option<MoonPhase>)
    ensures p.Some? <==> 0 <= i <= 7
  {
    if i == 0 then Some(FullMoon)
    else if i == 1 then Some(WaxingGibbous)
    else if i == 2 then Some(FirstQuarter)
    else if i == 3 then Some(WaxingCrescent)
    else if i == 4 then Some(NewMoon)
    else if i == 5 then Some(WaningCrescent)
    else if i == 6 then Some(LastQuarter)
    else if i == 7 then Some(WaningGibbous)
    else None
  }

  /** An ecliptic longitude wrapped once from above: 180 and below are kept. */
  function WrapLongitude(lon: real): (r: real)
    ensures lon <= 540.0 ==> r <= 180.0
    ensures AstroCalc.Normalize(r, 360.0) == AstroCalc.Normalize(lon, 360.0)
  {
    AstroCalc.NormalizePeriodic(lon - 360.0, 360.0, 1);
    if lon > 180.0 then lon - 360.0 else lon
  }

  /** The phase longitude: the Sun-minus-Earth longitude difference as an angle in (-180, 180]. */
  function PhaseLongitude(delta: real): (r: real)
    ensures -180.0 < r <= 180.0
    ensures AstroCalc.Normalize(r, 360.0) == AstroCalc.Normalize(delta, 360.0)
  {
    var phlon := AstroCalc.Normalize(delta, 360.0);
    if phlon > 180.0 then
      AstroCalc.NormalizeUnique(phlon - 360.0, 360.0, -1, phlon);
      phlon - 360.0
    else
      AstroCalc.NormalizeUnique(phlon, 360.0, 0, phlon);
      phlon
  }

  /** The phase index: the eighth of the turn the difference falls in, sectors centred on multiples of 45 degrees. */
  function PhaseIndex(delta: real): (r: int)
    ensures 0 <= r <= 7
  {
    (AstroCalc.Normalize(delta + 22.5, 360.0) / 45.0).Floor
  }

  /** Shifting by less than a turn shifts the reduced angle, wrapping once past 360. */
  lemma NormalizeShift(delta: real, s: real)
    requires 0.0 <= s < 360.0
    ensures AstroCalc.Normalize(delta + s, 360.0)
      == if AstroCalc.Normalize(delta, 360.0) + s < 360.0 then AstroCalc.Normalize(delta, 360.0) + s
         else AstroCalc.Normalize(delta, 360.0) + s - 360.0
  {
    var w := AstroCalc.Normalize(delta, 360.0);
    AstroCalc.NormalizeSubtractsPeriods(delta, 360.0);
    var k := (delta / 360.0).Floor;
    assert w == delta - (k as real) * 360.0;
    assert w + s == (delta + s) - (k as real) * 360.0;
    assert w + s - 360.0 == (delta + s) - ((k + 1) as real) * 360.0;
    if w + s < 360.0 {
      AstroCalc.NormalizeUnique(delta + s, 360.0, k, w + s);
    } else {
      AstroCalc.NormalizeUnique(delta + s, 360.0, k + 1, w + s - 360.0);
    }
  }

  /**
   * Index `k` from 1 to 7 covers the differences within 22.5 degrees of 45k; index 0 covers
   * those within 22.5 degrees of 0, across the wrap.
   */
  lemma PhaseIndexSector(delta: real, k: int)
    requires 0 <= k <= 7
    ensures k > 0 ==> (PhaseIndex(delta) == k <==>
      45.0 * k as real - 22.5 <= AstroCalc.Normalize(delta, 360.0) < 45.0 * k as real + 22.5)
    ensures k == 0 ==> (PhaseIndex(delta) == 0 <==>
      AstroCalc.Normalize(delta, 360.0) < 22.5 || AstroCalc.Normalize(delta, 360.0) >= 337.5)
  {
    NormalizeShift(delta, 22.5);
  }

  /** Full moon is the phase longitude within 22.5 degrees of 0; new moon within 22.5 degrees of 180. */
  lemma FullAndNewMoonSectors(delta: real)
    ensures PhaseIndex(delta) == 0 <==> -22.5 <= PhaseLongitude(delta) < 22.5
    ensures PhaseIndex(delta) == 4 <==> PhaseLongitude(delta) >= 157.5 || PhaseLongitude(delta) < -157.5
  {
    PhaseIndexSector(delta, 0);
    PhaseIndexSector(delta, 4);
    var phlon := AstroCalc.Normalize(delta, 360.0);
    assert PhaseLongitude(delta) == if phlon > 180.0 then phlon - 360.0 else phlon;
  }

  /** An ecliptic position as `equ2ecl` gives it, in degrees. */
  datatype EclipticPoint = EclipticPoint(lon: real, lat: real)

  /**
   * What `get_moon_phase` measures at one instant: the ecliptic transit points of the Earth
   * and the Sun on the Moon and the Earth-Moon-Sun angle in degrees.
   */
  datatype MoonGeometry = MoonGeometry(earth: EclipticPoint, sun: EclipticPoint, emsAngle: real)

  /** `moon_information`. */
  datatype MoonInformation = MoonInformation(
    sunEarthAngle: real, sunEarthAngleLong: real, sunEarthAngleLat: real,
    percentIllumination: real, phase: MoonPhase)

  /**
   * The arithmetic of `get_moon_phase` (the source's `phindex` range check maps to the error
   * case; `cos` is the cosine the illumination uses). The range check never fires.
   */
  function GetMoonPhase(g: MoonGeometry, cos: real -> real): (r: Result<MoonInformation, int>)
    ensures r.Success?
    ensures -180.0 < r.value.sunEarthAngleLong <= 180.0
    ensures AstroCalc.Normalize(r.value.sunEarthAngleLong, 360.0)
      == AstroCalc.Normalize(WrapLongitude(g.sun.lon) - WrapLongitude(g.earth.lon), 360.0)
    ensures r.value.sunEarthAngleLat == g.sun.lat - g.earth.lat
    ensures Some(r.value.phase) == PhaseOfIndex(PhaseIndex(WrapLongitude(g.sun.lon) - WrapLongitude(g.earth.lon)))
    ensures r.value.sunEarthAngle == g.emsAngle
  {
    var earthLon := WrapLongitude(g.earth.lon);
    var sunLon := WrapLongitude(g.sun.lon);
    var phlon := PhaseLongitude(sunLon - earthLon);
    var phindex := PhaseIndex(sunLon - earthLon);
    var phlat := g.sun.lat - g.earth.lat;
    match PhaseOfIndex(phindex)
    case None => Failure(phindex)
    case Some(phase) =>
      var pctIllum := (1.0 + cos(AstroCalc.ToRadians(g.emsAngle))) / 2.0;
      Success(MoonInformation(g.emsAngle, phlon, phlat, pctIllum, phase))
  }

  /**
   * The scalar the moon search samples: the phase longitude at an instant, an angle in
   * (-180, 180] that passes 0 at full moon and jumps from 180 to -180 at new moon.
   */
  function PhaseLonAt(geometry: real -> MoonGeometry, cos: real -> real): (f: real -> real)
    ensures forall t :: -180.0 < f(t) <= 180.0
  {
    PhaseLongitudesInRange(geometry, cos);
    t => GetMoonPhase(geometry(t), cos).value.sunEarthAngleLong
  }

  /** At every instant the phase longitude lies in (-180, 180]. */
  lemma PhaseLongitudesInRange(geometry: real -> MoonGeometry, cos: real -> real)
    ensures forall t :: -180.0 < GetMoonPhase(geometry(t), cos).value.sunEarthAngleLong <= 180.0
  {
    forall t ensures -180.0 < GetMoonPhase(geometry(t), cos).value.sunEarthAngleLong <= 180.0 {
      var r := GetMoonPhase(geometry(t), cos);
      assert r.Success?;
    }
  }

  // ---------------------------------------------------------------------------
  // Searches

  /** What `equ2hor` and `place` give for the planet at an instant. */
  datatype Sighting = Sighting(zenithDistance: real, azimuth: real, rightAscension: real, distanceAu: real)

  /** `planetary_event`. */
  datatype PlanetaryEvent = PlanetaryEvent(time: real, sighting: Sighting, kind: EventKind)

  /**
   * The elevation search function: the `zenithDistance` field (which the wrapper of `equ2hor`
   * turns into the elevation, 90 less the zenith distance) plus half the apparent disc
   * (`disc` maps a distance in km to degrees). It is positive exactly while the upper limb
   * is above the horizon, and 0 when it touches it.
   */
  function Elevation(sight: real -> Sighting, disc: real -> real): (f: real -> real)
    ensures forall t :: f(t) > 0.0 <==> sight(t).zenithDistance > -disc(AstroCalc.AuToKm(sight(t).distanceAu)) / 2.0
    ensures forall t :: f(t) == 0.0 <==> sight(t).zenithDistance == -disc(AstroCalc.AuToKm(sight(t).distanceAu)) / 2.0
  {
    t => sight(t).zenithDistance + disc(AstroCalc.AuToKm(sight(t).distanceAu)) / 2.0
  }

  /**
   * The azimuth search function: azimuth less 180, negative in the eastern half (below 180),
   * so it changes sign at 180 and, from the [0, 360) of `equ2hor`, jumps back across 0/360.
   */
  function Azimuth(sight: real -> Sighting): (f: real -> real)
    ensures forall t :: f(t) < 0.0 <==> sight(t).azimuth < 180.0
    ensures forall t :: 0.0 <= sight(t).azimuth < 360.0 ==> -180.0 <= f(t) < 180.0
  {
    t => sight(t).azimuth - 180.0
  }

  /** The elevation search samples one slice per three hours of the window. */
  function ElevationSlices(jdBegin: real, jdEnd: real): (n: int)
    ensures n as real <= 8.0 * (jdEnd - jdBegin) < n as real + 1.0
  {
    (8.0 * (jdEnd - jdBegin)).Floor
  }

  /** The number of brackets a search over the window finds for `f` with `n` slices. */
  function BracketCount(f: real -> real, jdBegin: real, jdEnd: real, n: int): nat
  {
    |RootFinding.BracketSteps(f, jdBegin, RootFinding.StepWidth(jdBegin, jdEnd, n), n)|
  }

  /** The event times in order. */
  function Times(events: seq<PlanetaryEvent>): (r: seq<real>)
    ensures |r| == |events| && forall k :: 0 <= k < |events| ==> r[k] == events[k].time
  {
    seq(|events|, k requires 0 <= k < |events| => events[k].time)
  }

  /** An event records the sighting at its time and the kind classified from it. */
  predicate ClassifiedAt(sight: real -> Sighting, sidereal: real -> SiderealReading, longitude: real, e: PlanetaryEvent)
  {
    e.sighting == sight(e.time)
    && DetermineEventType(sidereal(e.time), longitude, e.sighting.rightAscension) == Success(e.kind)
  }

  /** Why a search throws. */
  datatype FinderError = RootFailed(cause: RootFinding.RootError) | SiderealFailed(reason: SiderealError)

  /** Every bracket `zbrak` returns has ends whose values are not of the same strict sign. */
  lemma ZbrakBracketsUsable(f: real -> real, x1: real, x2: real, n: int, xb1: seq<real>, xb2: seq<real>, nroot: nat,
                            rest1: seq<real>, rest2: seq<real>)
    requires nroot == |RootFinding.BracketSteps(f, x1, RootFinding.StepWidth(x1, x2, n), n)|
    requires xb1 == RootFinding.Lows(x1, RootFinding.StepWidth(x1, x2, n), RootFinding.BracketSteps(f, x1, RootFinding.StepWidth(x1, x2, n), n)) + rest1
    requires xb2 == RootFinding.Highs(x1, RootFinding.StepWidth(x1, x2, n), RootFinding.BracketSteps(f, x1, RootFinding.StepWidth(x1, x2, n), n)) + rest2
    ensures forall k :: 0 <= k < nroot ==> !RootFinding.SameStrictSign(f(xb1[k]), f(xb2[k]))
  {
    forall k | 0 <= k < nroot
      ensures !RootFinding.SameStrictSign(f(xb1[k]), f(xb2[k]))
    {
      RootFinding.BracketsChangeSign(f, x1, RootFinding.StepWidth(x1, x2, n), n, k);
    }
  }

  /** Refining every bracket that `zbrak` found, in order, with the shared tolerance. */
  method RefineBrackets(f: real -> real, xb1: seq<real>, xb2: seq<real>, nroot: nat)
    returns (r: Result<seq<real>, RootFinding.RootError>)
    requires nroot <= |xb1| && nroot <= |xb2|
    ensures r.Success? ==> |r.value| == nroot
    ensures r.Success? ==> forall k :: 0 <= k < nroot ==> RootFinding.Converged(f, r.value[k], FinderTolerance)
    ensures (forall k :: 0 <= k < nroot ==> !RootFinding.SameStrictSign(f(xb1[k]), f(xb2[k])))
      ==> r.Failure? ==> r.error == RootFinding.TooManyIterations
  {
    var roots: seq<real> := [];
    for i := 0 to nroot
      invariant |roots| == i
      invariant forall k :: 0 <= k < i ==> RootFinding.Converged(f, roots[k], FinderTolerance)
    {
      var root := RootFinding.Zbrent(f, xb1[i], xb2[i], FinderTolerance);
      if root.Failure? {
        return Failure(root.error);
      }
      roots := roots + [root.value];
    }
    return Success(roots);
  }

  /**
   * One search of `find_planetary_events` or `find_new_and_full_moons`: `zbrak` over the
   * window with `n` slices into empty buffers, then `zbrent` on every bracket in order. As
   * every bracket has ends not of the same strict sign, the only failure is `zbrent`
   * running out of iterations.
   */
  method SearchRoots(f: real -> real, jdBegin: real, jdEnd: real, n: int)
    returns (r: Result<seq<real>, RootFinding.RootError>)
    ensures r.Success? ==> |r.value| == BracketCount(f, jdBegin, jdEnd, n)
    ensures r.Success? ==> forall k :: 0 <= k < |r.value| ==> RootFinding.Converged(f, r.value[k], FinderTolerance)
    ensures r.Failure? ==> r.error == RootFinding.TooManyIterations
  {
    var xb1, xb2, nroot := RootFinding.Zbrak(f, jdBegin, jdEnd, n, [], []);
    ZbrakBracketsUsable(f, jdBegin, jdEnd, n, xb1, xb2, nroot,
      RootFinding.Backing([], |xb1|)[nroot..], RootFinding.Backing([], |xb2|)[nroot..]);
    r := RefineBrackets(f, xb1, xb2, nroot);
  }

  /** NOVAS `sidereal_time` reports success at every instant. */
  ghost predicate SiderealNeverFails(sidereal: real -> SiderealReading)
  {
    forall t :: sidereal(t).error <= 0
  }

  /**
   * The last loop of `find_planetary_events`: one event per time, in order, with the sighting
   * at that time and its classification; a sidereal-time error ends the loop.
   */
  method ClassifyEvents(sight: real -> Sighting, sidereal: real -> SiderealReading, longitude: real, times: seq<real>)
    returns (r: Result<seq<PlanetaryEvent>, SiderealError>)
    ensures r.Success? ==> Times(r.value) == times
    ensures r.Success? ==> forall k :: 0 <= k < |r.value| ==> ClassifiedAt(sight, sidereal, longitude, r.value[k])
    ensures SiderealNeverFails(sidereal) ==> r.Success?
  {
    var events: seq<PlanetaryEvent> := [];
    for i := 0 to |times|
      invariant Times(events) == times[..i]
      invariant forall k :: 0 <= k < i ==> ClassifiedAt(sight, sidereal, longitude, events[k])
    {
      var t := times[i];
      var kind := DetermineEventType(sidereal(t), longitude, sight(t).rightAscension);
      if kind.Failure? {
        assert !SiderealNeverFails(sidereal);
        return Failure(kind.error);
      }
      events := events + [PlanetaryEvent(t, sight(t), kind.value)];
    }
    assert times[..|times|] == times;
    return Success(events);
  }

  /** `std::sort` on the event times: the same values, ascending. */
  method SortTimes(a: array<real>)
    modifies a
    ensures forall j, k :: 0 <= j < k < a.Length ==> a[j] <= a[k]
    ensures multiset(a[..]) == multiset(old(a[..]))
  {
    var i := 1;
    while i < a.Length
      invariant 1 <= i && (i <= a.Length || i == 1)
      invariant forall p, q :: 0 <= p < q < i ==> a[p] <= a[q]
      invariant multiset(a[..]) == multiset(old(a[..]))
    {
      var j := i;
      while j > 0 && a[j - 1] > a[j]
        invariant 0 <= j <= i
        invariant forall p, q :: 0 <= p < q <= i && p != j && q != j ==> a[p] <= a[q]
        invariant forall q :: j < q <= i ==> a[j] < a[q]
        invariant multiset(a[..]) == multiset(old(a[..]))
      {
        a[j - 1], a[j] := a[j], a[j - 1];
        j := j - 1;
      }
      i := i + 1;
    }
  }

  /** The event times of `find_planetary_events` in a vector sorted in place. */
  method SortedTimes(times: seq<real>) returns (sorted: seq<real>)
    ensures forall j, k :: 0 <= j < k < |sorted| ==> sorted[j] <= sorted[k]
    ensures multiset(sorted) == multiset(times)
  {
    var a := new real[|times|](k requires 0 <= k < |times| => times[k]);
    assert a[..] == times;
    SortTimes(a);
    sorted := a[..];
  }

  /**
   * `find_planetary_events`: brackets the elevation function over floor(8 * span) slices and
   * the azimuth function over 124 slices, refines every bracket once, sorts all the roots
   * together and classifies each. The ghost results name the roots of each search.
   */
  method FindPlanetaryEvents(sight: real -> Sighting, disc: real -> real, sidereal: real -> SiderealReading,
                             longitude: real, jdBegin: real, jdEnd: real)
    returns (r: Result<seq<PlanetaryEvent>, FinderError>, ghost elevationRoots: seq<real>, ghost azimuthRoots: seq<real>)
    ensures r.Success? ==> |elevationRoots| == BracketCount(Elevation(sight, disc), jdBegin, jdEnd, ElevationSlices(jdBegin, jdEnd))
    ensures r.Success? ==> |azimuthRoots| == BracketCount(Azimuth(sight), jdBegin, jdEnd, AzimuthSlices)
    ensures r.Success? ==> forall k :: 0 <= k < |elevationRoots| ==>
      RootFinding.Converged(Elevation(sight, disc), elevationRoots[k], FinderTolerance)
    ensures r.Success? ==> forall k :: 0 <= k < |azimuthRoots| ==>
      RootFinding.Converged(Azimuth(sight), azimuthRoots[k], FinderTolerance)
    ensures r.Success? ==> multiset(Times(r.value)) == multiset(elevationRoots + azimuthRoots)
    ensures r.Success? ==> forall j, k :: 0 <= j < k < |r.value| ==> r.value[j].time <= r.value[k].time
    ensures r.Success? ==> forall k :: 0 <= k < |r.value| ==> ClassifiedAt(sight, sidereal, longitude, r.value[k])
    ensures r.Failure? && r.error.RootFailed? ==> r.error.cause == RootFinding.TooManyIterations
    ensures SiderealNeverFails(sidereal) ==> r.Success? || r.error.RootFailed?
  {
    elevationRoots, azimuthRoots := [], [];
    var found := SearchRoots(Elevation(sight, disc), jdBegin, jdEnd, ElevationSlices(jdBegin, jdEnd));
    if found.Failure? {
      return Failure(RootFailed(found.error)), elevationRoots, azimuthRoots;
    }
    var elRoots := found.value;
    elevationRoots := elRoots;
    found := SearchRoots(Azimuth(sight), jdBegin, jdEnd, AzimuthSlices);
    if found.Failure? {
      return Failure(RootFailed(found.error)), elevationRoots, azimuthRoots;
    }
    var azRoots := found.value;
    azimuthRoots := azRoots;
    var sorted := SortedTimes(elRoots + azRoots);
    var events := ClassifyEvents(sight, sidereal, longitude, sorted);
    if events.Failure? {
      return Failure(SiderealFailed(events.error)), elevationRoots, azimuthRoots;
    }
    return Success(events.value), elevationRoots, azimuthRoots;
  }

  /**
   * `find_new_and_full_moons`: brackets the phase longitude over 120 slices and returns
   * the refined instant of each bracket, in bracket order. The phase longitude changes
   * sign at full moon (through 0) and at new moon (jumping from 180 to -180).
   */
  method FindNewAndFullMoons(geometry: real -> MoonGeometry, cos: real -> real, jdBegin: real, jdEnd: real)
    returns (r: Result<seq<real>, RootFinding.RootError>)
    ensures r.Success? ==> |r.value| == BracketCount(PhaseLonAt(geometry, cos), jdBegin, jdEnd, MoonSlices)
    ensures r.Success? ==> forall k :: 0 <= k < |r.value| ==>
      RootFinding.Converged(PhaseLonAt(geometry, cos), r.value[k], FinderTolerance)
    ensures r.Failure? ==> r.error == RootFinding.TooManyIterations
  {
    r := SearchRoots(PhaseLonAt(geometry, cos), jdBegin, jdEnd, MoonSlices);
  }
}
