# planetaria / novas-wrapper: a Dafny model of the time scales, the IERS table and the event finder

This project models the computational core of `novas-wrapper`, the C++ layer that
`planetaria` puts over the NOVAS astrometry library, together with the two command-line
helpers of `planetaria` itself. It covers:

- **Angle and unit helpers** (`astro_calc`). Periodic normalisation, degree/radian and
  km/AU conversions, and splitting an angle into hours-minutes-seconds or
  degrees-minutes-seconds and joining it back. Also the field width used when printing
  IAU designations.
- **Time scales** (`astro_time`). The leap-second table and its `lower_bound` lookup, and
  the UTC↔TT conversions built on it, including the two-lookup inversion of TT→UTC. Also
  the `astro_time` object: its named constructors (TT, UTC, UT1, TDB, ISO 8601 text), its
  cached Earth-orientation record, Delta T, and the year-start and month-start
  navigation done in C `short` arithmetic.
- **ISO 8601 parsing** (`from_iso8601`). The three accepted lengths and the `sscanf`
  conversion counts that decide success.
- **The IERS `finals` table** (`finals_data_handler`):
  - the fixed-column line parser, with its reused number buffer;
  - the line loop that stops at the first bad line and reports it only before line 10;
  - the lookup of the record at the Julian midnight before an instant, and linear
    interpolation between it and the next record.
- **Root finding** (`zbrent.h`). `zbrak` sampling an interval for sign changes into
  buffers that double when full, and Brent's method `zbrent` with its bracketing check and
  its iteration limit.
- **Event finding** (`novas_utils`):
  - local apparent sidereal time and its error codes;
  - the hour-angle test that tells rise, set and the two culminations apart;
  - the moon phase from the Sun and Earth points on the Moon;
  - the planetary event search: elevation and azimuth roots, sorted, then classified;
  - the new- and full-moon search.
- **Command line** (`main.cpp`). `input_parser`, which keeps the tokens after the program
  name, finds an option and reads the token after it; and `iequals`, the
  case-insensitive comparison.

C++ `double` becomes `real`. A NaN that means "unset" becomes `Option` (`None`). A C++
`short` is an explicit 16-bit two's-complement conversion (`AstroTimes.ToInt16`). An
exception becomes the `Failure` of a `Result`. The foreign routines are parameters:
NOVAS's `tdb2tt`, `julian_date`, `cal_date`, `sidereal_time`, `place`, `equ2hor` and
`equ2ecl`, the C library's `strtol`/`strtod` inside `sscanf`, `std::stod`, and `atan`/`cos`.
They are given as function values or as the fields of a datatype.

In these places the model follows the code as written:

- `finals_data_for_time` dates its result at the looked-up instant before it searches
  (finals_data_handler.cpp:159), so with no usable record it returns the default record
  carrying that date (`FinalsData.RecordForTime`).
- `from_iso8601` accepts a date-time of 20 or more characters even when its final `Z` is
  missing. The `Z` comes after the last conversion, so `sscanf`'s count cannot see it
  (`Iso8601.TrailingLiteralIgnored`).
- `from_ut1` subtracts UT1−UTC, which the record holds in seconds, from a date in days
  without dividing by 86400. So the UTC it stores maps back to the given UT1 only when
  UT1−UTC is zero (`AstroTimes.FromUt1UtcMapsBack`).
- `as_ut1` and `delta_t` compute UT1 only while no record is cached. If `get_finals_data`
  filled the cache first, UT1 stays unset and `as_ut1` returns NaN, modelled as `None`
  (`AstroTimes.AstroTime.AsUt1`).
- `zbrak` resizes the vectors its caller passes in. The first 20 entries (or fewer) then
  keep the caller's values beyond the brackets found. `find_planetary_events` clears
  them before its second search, so the model passes empty sequences there
  (`RootFinding.Zbrak`, `EventFinder.FindPlanetaryEvents`).

## Model

| member | source | states |
|---|---|---|
| AstroCalc.Abs | novas-wrapper/src/zbrent.h:47-50 | the magnitude used by `SIGN`: non-negative and equal to `x` or `-x` |
| AstroCalc.Normalize | novas-wrapper/src/astro_calc.h:23-27 | for a positive period the result lies in `[0, period)` |
| AstroCalc.NormalizeSubtractsPeriods | novas-wrapper/src/astro_calc.h:23-27 | the result is the value minus a whole number of periods, the floor of value/period |
| AstroCalc.NormalizeUnique | novas-wrapper/src/astro_calc.h:23-27 | any value in `[0, period)` that differs from the input by whole periods is the result |
| AstroCalc.NormalizePeriodic | novas-wrapper/src/astro_calc.h:23-27 | adding whole periods to the input does not change the result |
| AstroCalc.NormalizeIdempotent | novas-wrapper/src/astro_calc.h:23-27 | normalising twice gives the same as once |
| AstroCalc.NormalizeDegrees | novas-wrapper/src/astro_calc.h:29-32 | the angle reduced into `[0, 360)`, the same as normalising with period 360 |
| AstroCalc.ToDegrees | novas-wrapper/src/astro_calc.h:34-36 | converting radians to degrees is undone by `to_radians`, and π radians is 180 degrees |
| AstroCalc.ToRadians | novas-wrapper/src/astro_calc.h:38-40 | the radians times degrees-per-radian give back the degrees, and 180 degrees is π radians |
| AstroCalc.DegreesRadiansInverse | novas-wrapper/src/astro_calc.h:34-40 | `to_degrees` and `to_radians` are inverse in both orders |
| AstroCalc.KmToAu | novas-wrapper/src/astro_calc.h:48-50 | converting km to AU is undone by `au_to_km`, and 149597870.7 km is 1 AU |
| AstroCalc.AuToKm | novas-wrapper/src/astro_calc.h:52-54 | the km times AU-per-km give back the AU, and 1 AU is 149597870.7 km |
| AstroCalc.KmAuInverse | novas-wrapper/src/astro_calc.h:45-54 | `km_to_au` and `au_to_km` are inverse in both orders |
| AstroCalc.DegToHms | novas-wrapper/src/astro_calc.cpp:13-41 | minutes in `[0,60)` and seconds in `[0,60)`; the hours are the truncated \|deg\|/15 with the sign of the input |
| AstroCalc.HmsDecimalToHms | novas-wrapper/src/astro_calc.cpp:43-45 | decimal hours split into signed whole hours, minutes in `[0,60)` and seconds in `[0,60)` |
| AstroCalc.HmsToDeg | novas-wrapper/src/astro_calc.cpp:47-53 | with non-negative hours and minutes and seconds in `[0,60)`, the angle lies in `[15·hours, 15·(hours+1))` |
| AstroCalc.HmsRoundTrip | novas-wrapper/src/astro_calc.cpp:13-53 | for a non-negative angle, `hms_to_deg(deg_to_hms(d)) == d` |
| AstroCalc.HmsSignLost | novas-wrapper/src/astro_calc.cpp:13-53 | for `-15 < d < 0` the hours are 0, so the sign is lost and the round trip gives `-d` |
| AstroCalc.DegToDms | novas-wrapper/src/astro_calc.cpp:55-67 | the whole degrees truncate toward zero; minutes and seconds lie in `[0,60)` |
| AstroCalc.DmsToDeg | novas-wrapper/src/astro_calc.cpp:69-75 | with non-negative minutes and seconds the angle is negative exactly when the degrees are; with them in `[0,60)` its magnitude lies in `[\|degrees\|, \|degrees\|+1)` |
| AstroCalc.DmsRoundTrip | novas-wrapper/src/astro_calc.cpp:55-75 | `dms_to_deg(deg_to_dms(d)) == d`, except for `-1 < d < 0`, where the sign is lost and the result is `-d` |
| AstroCalc.IidWidth | novas-wrapper/src/astro_calc.cpp:77-102 | the first field of an IAU designation is printed 3 wide below -9 or above 99, otherwise 2 wide; the branches for 4 and 5 are never reached, because a wider test comes first |
| LeapSeconds.ConsecutiveGivesSorted | novas-wrapper/src/astro_time.cpp:39-67 | a table whose successive dates are at least a day apart is sorted by date |
| LeapSeconds.TableGaps | novas-wrapper/src/astro_time.cpp:39-67 | successive dates in the leap-second table are at least a day apart |
| LeapSeconds.TableOffsetsIncrease | novas-wrapper/src/astro_time.cpp:39-67 | TAI−UTC strictly increases along the table |
| LeapSeconds.TableOffsetsBounded | novas-wrapper/src/astro_time.cpp:39-67 | every TAI−UTC in the table lies strictly between 0 and 40 seconds |
| LeapSeconds.TableWellFormed | novas-wrapper/src/astro_time.cpp:39-67 | the table is sorted with increasing, bounded offsets |
| LeapSeconds.LowerBoundIn | novas-wrapper/src/astro_time.cpp:77 | the binary search inside `[lo, hi)` returns the first index whose date is not below the key |
| LeapSeconds.LowerBound | novas-wrapper/src/astro_time.cpp:77 | `std::lower_bound`: every entry before the index is earlier than the key, every entry from it on is not |
| LeapSeconds.LeapAtIsOffsetBefore | novas-wrapper/src/astro_time.cpp:72-96 | the lookup gives 0 before the table, otherwise the offset of the entry before the lower bound |
| LeapSeconds.LowerBoundUnique | novas-wrapper/src/astro_time.cpp:77 | an index that splits the table at the key is the lower bound |
| LeapSeconds.OffsetBeforeIncreasing | novas-wrapper/src/astro_time.cpp:72-96 | in a well-formed table a later split point gives a strictly larger offset |
| LeapSeconds.LowerBoundMonotone | novas-wrapper/src/astro_time.cpp:77 | a later key never has an earlier lower bound |
| LeapSeconds.LeapAtMonotone | novas-wrapper/src/astro_time.cpp:72-96 | the leap-second count never decreases with time |
| LeapSeconds.LeapAtBounds | novas-wrapper/src/astro_time.cpp:72-96 | the looked-up count lies in `[0, 40)` |
| LeapSeconds.LeapSecBeforeTable | novas-wrapper/src/astro_time.cpp:79-83 | up to and including 1 January 1972 (JD 2441317.5) the count is 0 |
| LeapSeconds.LeapSecBetweenEntries | novas-wrapper/src/astro_time.cpp:92-95 | after one entry's date and up to the next entry's date, the count is that first entry's TAI−UTC |
| LeapSeconds.LeapSecAfterTable | novas-wrapper/src/astro_time.cpp:84-88 | after 1 January 2017 (JD 2457754.5) the count is the last entry's 37 s |
| LeapSeconds.LeapSecMonotone | novas-wrapper/src/astro_time.cpp:72-96 | `leapsec_tai_utc` never decreases with time |
| LeapSeconds.LeapSecRange | novas-wrapper/src/astro_time.cpp:72-96 | `leapsec_tai_utc` is 0 or between 10 and 37 seconds |
| LeapSeconds.JulianUtcToTt | novas-wrapper/src/astro_time.cpp:216-222 | TT is later than UTC by 32.184 s plus at most 37 leap seconds |
| LeapSeconds.JulianTtToUtc | novas-wrapper/src/astro_time.cpp:224-248 | UTC is earlier than TT by 32.184 s plus at most 37 leap seconds |
| LeapSeconds.SecondLookupRecoversUtc | novas-wrapper/src/astro_time.cpp:224-248 | looking up the count at TAI and then at TAI minus that count gives the count at the original UTC |
| LeapSeconds.RoundTripOn | novas-wrapper/src/astro_time.cpp:216-248 | over any well-formed leap-second table the TT→UTC inversion undoes UTC→TT |
| LeapSeconds.UtcTtRoundTrip | novas-wrapper/src/astro_time.cpp:216-248 | `julian_tt_to_utc(julian_utc_to_tt(u)) == u` for every UTC date, across leap-second boundaries |
| Iso8601.Conversions | novas-wrapper/src/astro_time.cpp:310-326 | the conversions of a format are at most its length, and each is an integer or a real |
| Iso8601.ConversionsAppend | novas-wrapper/src/astro_time.cpp:310-326 | the conversions of two formats joined are their conversions joined |
| Iso8601.Scanf | novas-wrapper/src/astro_time.cpp:310-326 | `sscanf` stores a prefix of the format's conversions, each of the kind asked for |
| Iso8601.TrailingLiteralIgnored | novas-wrapper/src/astro_time.cpp:324 | a literal after the last conversion (the final `Z`) never changes what `sscanf` stores |
| Iso8601.ParseFieldsRejectsOtherLengths | novas-wrapper/src/astro_time.cpp:329-331 | a string of any length other than 7, 10 or at least 20 is refused without its `rv` |
| Iso8601.ParseFieldsYearMonth | novas-wrapper/src/astro_time.cpp:310-315 | a 7-character string is accepted exactly when both `%d-%d` conversions succeed; the fields are year and month with day 1 and time 0; refusal carries the count |
| Iso8601.ParseFieldsDate | novas-wrapper/src/astro_time.cpp:317-322 | a 10-character string is accepted exactly when all three date conversions succeed; the time is 0; refusal carries the count |
| Iso8601.ConversionsOfDateTimeBody | novas-wrapper/src/astro_time.cpp:324 | the date-time format converts five integers, then one real |
| Iso8601.ParseFieldsDateTime | novas-wrapper/src/astro_time.cpp:324-328 | a string of at least 20 characters is accepted exactly when all six conversions succeed; the fields are those values; refusal carries the count |
| Iso8601.ParseFields | novas-wrapper/src/astro_time.cpp:310-331 | a refusal names the text; it lacks a count exactly for lengths other than 7, 10 or at least 20, and a count is below the number of conversions asked; a year-month is day 1 and a date has time 0 |
| FinalsData.ExtractDouble | novas-wrapper/src/finals_data_handler.cpp:57-61 | past the end of the text, an error with the buffer unchanged; otherwise the buffer becomes the window of `length` characters (what the text supplies over what the buffer kept), and the value is `stod` of that buffer |
| FinalsData.ExtractDoubleWindow | novas-wrapper/src/finals_data_handler.cpp:57-61 | the buffer holds the text's window, then the earlier buffer's own characters up to `length` |
| FinalsData.ExtractDoubleInsideText | novas-wrapper/src/finals_data_handler.cpp:57-61 | over a window inside the text the buffer is exactly that window, whatever it held before |
| FinalsData.PredictionFlag | novas-wrapper/src/finals_data_handler.cpp:63-72 | accepted exactly for `I` (false) and `P` (true); any other character is an error naming it |
| FinalsData.ReadColumns | novas-wrapper/src/finals_data_handler.cpp:97-118 | when all fields read, there is one value per column, each of the kind the column asks for |
| FinalsData.ReadColumnsFromText | novas-wrapper/src/finals_data_handler.cpp:97-118 | when every column lies in the text and holds its kind, reading succeeds with each column's own value |
| FinalsData.ParseEpsilon | novas-wrapper/src/finals_data_handler.cpp:120-130 | inside the text, epsilon is the first window's number or 0 when it is not one, and its error is the second window's number, or 0 when either window fails |
| FinalsData.ParseLine | novas-wrapper/src/finals_data_handler.cpp:95-130 | every accepted line yields a dated record |
| FinalsData.ParseLineFromColumns | novas-wrapper/src/finals_data_handler.cpp:95-130 | a full line whose mandatory fields read is the record of those fields, dated MJD + 2400000.5, with epsilon and its error 0 where their windows fail |
| FinalsData.MandatoryColumnsReadable | novas-wrapper/src/finals_data_handler.cpp:97-118 | the mandatory columns are readable when their windows hold numbers and flags |
| FinalsData.RecordOfColumns | novas-wrapper/src/finals_data_handler.cpp:97-134 | the record built from the read columns carries each column's value in its field |
| FinalsData.ParseLineBadDate | novas-wrapper/src/finals_data_handler.cpp:100 | a line whose MJD window is not a number is refused with that window's text |
| FinalsData.ParseLineBadFlag | novas-wrapper/src/finals_data_handler.cpp:103 | a line whose polar-motion flag is neither `I` nor `P` is refused with that character |
| FinalsData.FindChar | novas-wrapper/src/finals_data_handler.cpp:90 | a found position is at or after the start and holds the character |
| FinalsData.FindCharFirst | novas-wrapper/src/finals_data_handler.cpp:90 | `find` returns the first occurrence, and none means no occurrence from the start on |
| FinalsData.NewlinesWithoutNewline | novas-wrapper/src/finals_data_handler.cpp:89-91 | skipping a stretch without a newline does not change the lines left |
| FinalsData.FinalsLineParserDates | novas-wrapper/src/finals_data_handler.cpp:100 | every line the finals parser accepts is dated |
| FinalsData.ParseFromEnd | novas-wrapper/src/finals_data_handler.cpp:90-91 | with no newline left the loop stops with nothing more |
| FinalsData.ParseFromFailure | novas-wrapper/src/finals_data_handler.cpp:138-144 | a failing line ends the parse with nothing more, that line's number and cause, raised only below line 10 |
| FinalsData.ParseFromSuccess | novas-wrapper/src/finals_data_handler.cpp:89-136 | an accepted line pushes its record and parsing continues after its newline with the next line number |
| FinalsData.ParseCountsLines | novas-wrapper/src/finals_data_handler.cpp:89-136 | a completed parse keeps one record per newline; an interrupted one keeps fewer, and its failing line is the one after the last record kept |
| FinalsData.ParseFrom | novas-wrapper/src/finals_data_handler.cpp:138-144 | a raised failure is on a line below 10, a quiet stop on a line of 10 or more |
| FinalsData.ParseReportsEarlyFailures | novas-wrapper/src/finals_data_handler.cpp:138-144 | a whole-text parse: complete with one record per line, raised below line 10 with at most 8 records, or stopped quietly from line 10 on with at least 9 |
| FinalsData.ParsedRecordsAreDated | novas-wrapper/src/finals_data_handler.cpp:89-136 | with a line parser that dates what it accepts, every kept record is dated |
| FinalsData.ParseText | novas-wrapper/src/finals_data_handler.cpp:74-145 | every record `parse_finals_data` keeps is dated |
| FinalsData.Key0 | novas-wrapper/src/finals_data_handler.cpp:164-173 | the key is the Julian midnight (a `.5` date) at or before the instant, less than a day before it |
| FinalsData.FindKeyFrom | novas-wrapper/src/finals_data_handler.cpp:175-178 | `std::find_if`: the first record within 0.001 days of the key, or the end when none is |
| FinalsData.Mix | novas-wrapper/src/finals_data_handler.cpp:151-153 | factor one half gives the midpoint, and equal ends give that value |
| FinalsData.MixEndpoints | novas-wrapper/src/finals_data_handler.cpp:151-153 | factor 0 gives the start value and factor 1 the end value |
| FinalsData.MixBetween | novas-wrapper/src/finals_data_handler.cpp:151-153 | a factor in `[0,1]` gives a value between the start and the end |
| FinalsData.FactorInUnit | novas-wrapper/src/finals_data_handler.cpp:191 | between the two records' dates the interpolation factor lies in `[0,1]` |
| FinalsData.FactorAtMidpoint | novas-wrapper/src/finals_data_handler.cpp:191 | halfway between two distinct dates the factor is one half |
| FinalsData.Interpolate | novas-wrapper/src/finals_data_handler.cpp:188-206 | dated at the instant, flags from the first record; between the dates every number lies between the records' numbers, and at the midpoint it is their average |
| FinalsData.RecordForTime | novas-wrapper/src/finals_data_handler.cpp:155-209 | the returned record is always dated at the looked-up instant |
| FinalsData.NoRecordNearKey | novas-wrapper/src/finals_data_handler.cpp:180-182 | without a record near the key the result is the default record at the instant |
| FinalsData.OnlyLastRecordNearKey | novas-wrapper/src/finals_data_handler.cpp:184-186 | when the matching record is the last one the result is also the default record |
| FinalsData.ExactAtRecordDate | novas-wrapper/src/finals_data_handler.cpp:188-206 | at exactly the matching record's date the values are that record's |
| FinalsData.InterpolatedBetween | novas-wrapper/src/finals_data_handler.cpp:188-206 | between the matching record and the next, every numeric field (polar motion, UT1−UTC, epsilon and their errors) lies between theirs; the flags come from the first |
| FinalsData.InterpolatedAtMidpoint | novas-wrapper/src/finals_data_handler.cpp:188-206 | halfway between the matching record's date and a later next one, every numeric field is the average of theirs |
| FinalsData.ScanLines | novas-wrapper/src/finals_data_handler.cpp:74-145 | the line loop keeps exactly the whole-text parse's records and reports its status |
| FinalsData.FinalsDataHandler.constructor | novas-wrapper/src/finals_data_handler.cpp:11 | a new handler holds no records |
| FinalsData.FinalsDataHandler.ParseFinalsData | novas-wrapper/src/finals_data_handler.cpp:74-145 | the records are replaced by the parse's records; an error is reported exactly for a bad line below line 10, with its number and cause |
| FinalsData.FinalsDataHandler.FinalsDataForTime | novas-wrapper/src/finals_data_handler.cpp:155-209 | the record for the instant over the loaded records |
| AstroTimes.ToInt16 | novas-wrapper/src/astro_time.cpp:107-112 | narrowing to `short` is the identity within its range |
| AstroTimes.ToInt16Wraps | novas-wrapper/src/astro_time.cpp:107-112 | narrowing ignores whole multiples of 2^16 |
| AstroTimes.ToInt16StepInverse | novas-wrapper/src/astro_time.cpp:543-616 | a `short` stepped up and back down (or down and up) is unchanged, across the wrap too |
| AstroTimes.HourPart | novas-wrapper/src/astro_time.cpp:107-112 | the hour argument is hours plus minutes/60 plus seconds/3600 |
| AstroTimes.JulianDateFromValues | novas-wrapper/src/astro_time.cpp:107-112 | for a year, month and day within `short` range, `julian_date` of them with the hour part |
| AstroTimes.JulianTtToTdb | novas-wrapper/src/astro_time.cpp:207-214 | TDB is TT plus the `tdb2tt` difference at TT, converted from seconds to days |
| AstroTimes.TdbTtRoundTrip | novas-wrapper/src/astro_time.cpp:197-214 | when `tdb2tt` is consistent, `julian_tt_to_tdb(julian_tdb_to_tt(t)) == t` |
| AstroTimes.TtTdbRoundTrip | novas-wrapper/src/astro_time.cpp:197-214 | when `tdb2tt` is consistent at the returned TDB and gives the same difference there, `julian_tdb_to_tt(julian_tt_to_tdb(t)) == t` |
| AstroTimes.Ut1Of | novas-wrapper/src/astro_time.cpp:363-371 | UT1 differs from UTC by the record's UT1−UTC seconds, as a fraction of a day |
| AstroTimes.DeltaTOf | novas-wrapper/src/astro_time.cpp:343-351 | Delta T is TT minus UT1, in seconds |
| AstroTimes.FromUt1UtcMapsBack | novas-wrapper/src/astro_time.cpp:275-286 | the UTC stored by `from_ut1` maps back to the given UT1 exactly when UT1−UTC is zero |
| AstroTimes.NextMonth | novas-wrapper/src/astro_time.cpp:572-588 | for a real month the step gives the following month, or January of the next year |
| AstroTimes.PrevMonth | novas-wrapper/src/astro_time.cpp:543-559 | for a real month the step gives the month before, or December of the year before |
| AstroTimes.MonthStepsInverse | novas-wrapper/src/astro_time.cpp:543-588 | a month forward then back, or back then forward, returns to the same month |
| AstroTimes.MonthAfterNextOfMonth | novas-wrapper/src/astro_time.cpp:591-616 | two steps give the month two later, rolling into the next year from November and December |
| AstroTimes.AstroTime.constructor | novas-wrapper/src/astro_time.cpp:339 | every scale 0 except UT1, which is unset; nothing cached |
| AstroTimes.AstroTime.FromTt | novas-wrapper/src/astro_time.cpp:255-263 | TT as given, UTC and TDB derived from it, UT1 unset |
| AstroTimes.AstroTime.FromUtc | novas-wrapper/src/astro_time.cpp:265-273 | UTC as given with TT and TDB derived, and TT converts back to exactly that UTC |
| AstroTimes.AstroTime.FromUt1 | novas-wrapper/src/astro_time.cpp:275-286 | the record is looked up at the UT1 date; UTC is UT1 minus UT1−UTC; TT and TDB follow from UTC |
| AstroTimes.AstroTime.FromTdb | novas-wrapper/src/astro_time.cpp:288-296 | TDB as given, TT from `tdb2tt`, UTC from TT, UT1 unset |
| AstroTimes.AstroTime.FromIso8601 | novas-wrapper/src/astro_time.cpp:298-337 | fails exactly when the text is refused, with its error; otherwise it is the UTC instant of the parsed fields |
| AstroTimes.AstroTime.GetFinalsData | novas-wrapper/src/astro_time.cpp:98-105 | looks the record up only while none is cached, then returns the cache; the time scales are unchanged |
| AstroTimes.AstroTime.AsUt1 | novas-wrapper/src/astro_time.cpp:363-371 | when nothing is cached, fills the cache and sets UT1 from it; otherwise keeps both, even an unset UT1; returns UT1 |
| AstroTimes.AstroTime.DeltaT | novas-wrapper/src/astro_time.cpp:343-351 | fills the cache as `as_ut1` does, then returns 32.184 + (TAI−UTC) − (UT1−UTC) |
| AstroTimes.AstroTime.PrevYearStart | novas-wrapper/src/astro_time.cpp:503-511 | the UTC instant of 1 January of the year before, in `short` arithmetic |
| AstroTimes.AstroTime.YearStart | novas-wrapper/src/astro_time.cpp:513-521 | the UTC instant of 1 January of this year |
| AstroTimes.AstroTime.NextYearStart | novas-wrapper/src/astro_time.cpp:523-531 | the UTC instant of 1 January of the next year |
| AstroTimes.AstroTime.YearAfterNextYearStart | novas-wrapper/src/astro_time.cpp:533-541 | the UTC instant of 1 January two years on |
| AstroTimes.AstroTime.PrevMonthStart | novas-wrapper/src/astro_time.cpp:543-559 | the UTC instant of the first of the previous month |
| AstroTimes.AstroTime.MonthStart | novas-wrapper/src/astro_time.cpp:561-570 | the UTC instant of the first of this month |
| AstroTimes.AstroTime.NextMonthStart | novas-wrapper/src/astro_time.cpp:572-588 | the UTC instant of the first of the next month |
| AstroTimes.AstroTime.MonthAfterNextMonthStart | novas-wrapper/src/astro_time.cpp:591-616 | the UTC instant of the first of the month after next |
| RootFinding.BracketSteps | novas-wrapper/src/zbrent.h:23-44 | the steps `zbrak` reports: none for a non-positive count, at most `n`, each a sign change of its sub-interval |
| RootFinding.BracketStepsNext | novas-wrapper/src/zbrent.h:26-29 | one more step moves the sample by `dx` and adds that step exactly when it changes sign |
| RootFinding.BracketStepsIncreasing | novas-wrapper/src/zbrent.h:26-44 | the brackets are reported in strictly increasing order |
| RootFinding.BracketStepsComplete | novas-wrapper/src/zbrent.h:26-44 | every sub-interval with a sign change is reported |
| RootFinding.CapacityFor | novas-wrapper/src/zbrent.h:19-41 | the buffer capacity is always above the bracket count and at least 20 |
| RootFinding.CapacityNext | novas-wrapper/src/zbrent.h:32-41 | one more bracket keeps the capacity, or doubles it when the buffer fills |
| RootFinding.EndsPush | novas-wrapper/src/zbrent.h:30-31 | recording a step appends its low and high ends |
| RootFinding.Resized | novas-wrapper/src/zbrent.h:20-35 | `resize`: the new length, old entries kept, new ones zero |
| RootFinding.BufferPush | novas-wrapper/src/zbrent.h:30-31 | writing at the count fills the next unused slot |
| RootFinding.BufferDouble | novas-wrapper/src/zbrent.h:32-41 | doubling a full buffer keeps every bracket and extends it with zeros |
| RootFinding.Zbrak | novas-wrapper/src/zbrent.h:17-45 | the count is the number of sign changes; each buffer holds the brackets' low (high) ends in order, then the caller's old or zero entries, up to a capacity of at least 20 that doubles |
| RootFinding.BracketsChangeSign | novas-wrapper/src/zbrent.h:29-31 | every reported bracket is `dx` wide and its ends do not have the same strict sign |
| RootFinding.Sign | novas-wrapper/src/zbrent.h:47-50 | `SIGN(a, b)` is \|a\| with the sign of `b` (non-negative when `b >= 0`) |
| RootFinding.Zbrent | novas-wrapper/src/zbrent.h:52-112 | "not bracketed" exactly when both ends have the same strict sign; a returned root meets the convergence test |
| EventFinder.LocalSiderealTime | novas-wrapper/src/novas_utils.cpp:175-218 | fails exactly on a positive error code (1 = accuracy, 2 = method, otherwise `cio_rai` code); the result is GAST + lon/15 shifted by at most one day and congruent to it modulo 24 |
| EventFinder.LocalSiderealTimeInDay | novas-wrapper/src/novas_utils.cpp:208-217 | for GAST in a day and \|lon\| ≤ 180 the result is GAST + lon/15 reduced into `[0,24)` |
| EventFinder.ClassifyHourAngle | novas-wrapper/src/novas_utils.cpp:236-255 | over `[0,24)`: upper culmination within 0.01 h of 0/24, lower within 0.01 h of 12, rise above 12, set below 12 |
| EventFinder.DetermineEventType | novas-wrapper/src/novas_utils.cpp:220-256 | fails exactly when the sidereal time does, with its error; otherwise classifies the hour angle in `[0,24)` congruent to LAST − RA |
| EventFinder.PhaseOfIndex | novas-wrapper/src/novas_utils.cpp:157-161 | an index names a phase exactly when it is 0 to 7 |
| EventFinder.WrapLongitude | novas-wrapper/src/novas_utils.cpp:130-133 | a longitude up to 540 becomes at most 180, with the same direction modulo 360 |
| EventFinder.PhaseLongitude | novas-wrapper/src/novas_utils.cpp:149-154 | the phase longitude lies in `(-180, 180]` and is congruent to the difference modulo 360 |
| EventFinder.PhaseIndex | novas-wrapper/src/novas_utils.cpp:150 | the index lies in 0 to 7 |
| EventFinder.NormalizeShift | novas-wrapper/src/novas_utils.cpp:150 | shifting by `s` before normalising is shifting after and wrapping once |
| EventFinder.PhaseIndexSector | novas-wrapper/src/novas_utils.cpp:150 | index `k` means the phase longitude lies in the 45-degree sector centred on 45·k |
| EventFinder.FullAndNewMoonSectors | novas-wrapper/src/novas_utils.cpp:150-161 | full moon exactly when the phase longitude is in `[-22.5, 22.5)`; new moon exactly when it is at least 157.5 or below −157.5 |
| EventFinder.GetMoonPhase | novas-wrapper/src/novas_utils.cpp:75-173 | never throws; phase longitude in `(-180,180]` and congruent to the wrapped difference; latitude difference; phase from the index; angle passed through |
| EventFinder.ElevationSlices | novas-wrapper/src/novas_utils.cpp:301 | the slice count is the floor of 8 × the span in days |
| EventFinder.Elevation | novas-wrapper/src/novas_utils.cpp:275-288 | the function is positive (zero) exactly when the stored zenith value is above (at) minus half the apparent diameter |
| EventFinder.Azimuth | novas-wrapper/src/novas_utils.cpp:290-294 | the function is negative exactly when the azimuth is below 180, and lies in `[-180,180)` for an azimuth in `[0,360)` |
| EventFinder.ZbrakBracketsUsable | novas-wrapper/src/novas_utils.cpp:303-308 | every bracket `zbrak` reports passes `zbrent`'s bracketing check |
| EventFinder.RefineBrackets | novas-wrapper/src/novas_utils.cpp:305-311 | on success, one converged root per bracket; with only valid brackets the only failure is the iteration limit |
| EventFinder.SearchRoots | novas-wrapper/src/novas_utils.cpp:303-311 | one converged root per sign change found, or the iteration-limit failure |
| EventFinder.ClassifyEvents | novas-wrapper/src/novas_utils.cpp:331-338 | one event per time, in order, each classified at its time; it fails only if sidereal time fails |
| EventFinder.SortTimes | novas-wrapper/src/novas_utils.cpp:327 | `std::sort`: sorted and a permutation of the input |
| EventFinder.SortedTimes | novas-wrapper/src/novas_utils.cpp:327 | a sorted permutation of the times |
| EventFinder.FindPlanetaryEvents | novas-wrapper/src/novas_utils.cpp:258-341 | the events are the elevation and azimuth roots (converged, one per sign change), sorted and classified; a root failure is the iteration limit; with sidereal time never failing only a root failure remains |
| EventFinder.PhaseLonAt | novas-wrapper/src/novas_utils.cpp:351-356 | the searched function, the moon's phase longitude, always lies in `(-180,180]` |
| EventFinder.FindNewAndFullMoons | novas-wrapper/src/novas_utils.cpp:343-368 | one converged root of the phase longitude per sign change over 120 slices, or the iteration-limit failure |
| CommandLine.IndexOf | planetaria/src/main.cpp:56-57 | `std::find`: the first index holding the option, or the length exactly when it is absent |
| CommandLine.InputParser.constructor | planetaria/src/main.cpp:48-52 | the tokens are the arguments after the program name, in order |
| CommandLine.InputParser.GetCmdOption | planetaria/src/main.cpp:54-64 | the token after the first occurrence; empty when the option is absent or is last |
| CommandLine.InputParser.CmdOptionExists | planetaria/src/main.cpp:66-69 | true exactly when the option is one of the tokens |
| CommandLine.ToUpper | planetaria/src/main.cpp:44 | a lower-case letter becomes its upper-case letter, 32 code points lower; any other character is unchanged |
| CommandLine.ToUpperIdempotent | planetaria/src/main.cpp:44 | upper-casing is idempotent and never gives a lower-case letter |
| CommandLine.EqualFrom | planetaria/src/main.cpp:43-45 | true exactly when the characters agree after upper-casing from position `i` on |
| CommandLine.IEquals | planetaria/src/main.cpp:40-46 | true exactly when the lengths agree and every character agrees after upper-casing |
| CommandLine.IEqualsIsUpperEquality | planetaria/src/main.cpp:40-46 | `iequals` holds exactly when the upper-cased strings are equal, so it is an equivalence |
| CommandLine.IEqualsUpper | planetaria/src/main.cpp:40-46 | a string case-insensitively equals its upper-cased form |

## Left out

- `astro_time::from_now` and `jd_utc_now`: they read the system clock under a mutex. Clocks and concurrency are not modelled.
- String formatting is not modelled: `as_string`, `strip_zero`, `as_*_str`, `as_iso8601_str`, `operator<<`, the text of `iid_to_str` beyond its field width, and the `moon_phase_str`/`planet_event_type_str` names. It is output formatting, not computation.
- Exception messages are not modelled; only the error values are. This includes the `cio_rai` message, which adds an integer to a string literal (pointer arithmetic), and the `rv` text of `from_iso8601`.
- The NOVAS routines (`tdb2tt`, `julian_date`, `cal_date`, `sidereal_time`, `place`, `equ2hor`, `equ2ecl`, `make_observer_on_surface`, `vector2radec`), the vector algebra of `vec3.cpp` and `atan`/`cos` are parameters. They are foreign numerical code.
- `AstroTimes.JulianTdbToTt`: it is the TT that `tdb2tt` returns, with no contract of its own; it and `AstroTimes.JulianTtToTdb` are correct only relative to the `tdb2tt` passed in, and nothing about TDB itself is proved. Both round trips (`AstroTimes.TdbTtRoundTrip`, `AstroTimes.TtTdbRoundTrip`) assume that `tdb2tt` is self-consistent and gives the same difference at TT as at TDB, which for the real routine holds only approximately.
- `slurp_file`, `load_finals_data_from_file` and the ephemeris files are not modelled: they are file I/O. `parse_finals_data` takes the file's text as a string.
- `finals_data_handler::instance()`, the process-wide singleton, becomes a handler object passed explicitly.
- `std::stod` is the parameter `stod`, which is `None` where it would throw; C's `strtol`/`strtod` inside `sscanf` are lexer parameters. Number syntax is not modelled.
- `main()`'s command dispatch and the planet table of `planet_utils.cpp` are not modelled: they are I/O around the core.
- `EventFinder.FindNewAndFullMoons`: returns the UTC dates of the events. The source wraps each date in `astro_time::from_utc`, which `AstroTimes.AstroTime.FromUtc` models separately. Its roots, like those of `EventFinder.SearchRoots`, are not shown to lie inside their brackets, so the result is not shown to be in increasing order.
- `EventFinder.GetMoonPhase`: the illumination `(1 + cos(ems_angle))/2` is computed with the given `cos`, and nothing is proved about it.
- `RootFinding.Zbrent`: the returned root is shown to meet the convergence test of the last iteration. It is not shown to lie inside the given bracket, and the floating-point accuracy of Brent's method is not modelled. `DBL_EPSILON` is a named real constant.
- `FinalsData.Factor`: interpolation divides by the difference of the two records' dates. When the dates are equal, or a record is undated (NaN), C++ gets an infinite or NaN factor and every interpolated number becomes infinite or NaN; the model uses factor 0 there, which gives the first record's numbers. `FinalsData.InterpolatedBetween` speaks only of instants between the two dates.
- `AstroTimes.ToInt16`: the `int`-to-`short` narrowing is modelled as two's-complement wrap-around, which is what C++20 guarantees and what common compilers do.
- The `(int)floor(...)` and `(int)ceil(...)` casts are modelled as exact, on unbounded integers: the hours of `deg_to_hms` (`AstroCalc.DegToHms`), the degrees of `deg_to_dms` (`AstroCalc.DegToDms`) and the slice count of `find_planetary_events` (`EventFinder.ElevationSlices`). In C++ a value outside `int` makes the cast undefined. The minutes and the moon-phase index are proved to lie in small ranges, so their casts are always defined.
- Floating-point rounding is not modelled anywhere: every `double` is an exact real. The round trips (`UtcTtRoundTrip`, `HmsRoundTrip`, `KmAuInverse`) hold for reals; in `double` they hold only up to rounding.
- `Iso8601.ParseFields`: on a string of only white space `sscanf` returns `EOF` (−1); the model's scanner stores nothing and counts 0. Both are refusals, and the refusal text is not modelled.
- `FinalsData.CharAt`: reading past the end of the text is undefined in C++ (`operator[]` beyond the size); the model gives `'\0'` there.
