/**
 * The `astro_time` instant: one moment held in four time scales (TT, UTC, UT1, TDB), built
 * from any one of them, with the Earth-orientation record for its UTC date fetched lazily
 * and cached. The NOVAS C routines it calls are not re-implemented: they are handed in as
 * the functions of a `Novas` value.
 */
module AstroTimes {
  import opened Wrappers
  import opened LeapSeconds
  import Iso8601
  import opened FinalsData

  /** A C++ `short`: the type of the calendar fields that NOVAS reads and writes. */
  type Int16 = x: int | -0x8000 <= x < 0x8000

  /** Conversion of an `int` to `short`, with two's-complement wrap-around. */
  function ToInt16(x: int): (r: Int16)
    ensures -0x8000 <= x < 0x8000 ==> r == x
  {
    (x + 0x8000) % 0x1_0000 - 0x8000
  }

  /** The conversion keeps the value modulo 2^16, so it does not depend on whole wraps. */
  lemma ToInt16Wraps(x: int, k: int)
    ensures ToInt16(x + k * 0x1_0000) == ToInt16(x)
  {
    assert (x + k * 0x1_0000 + 0x8000) % 0x1_0000 == (x + 0x8000) % 0x1_0000;
  }

  /** Stepping a `short` up by one and back down again gives it back, even across the wrap. */
  lemma ToInt16StepInverse(y: Int16)
    ensures ToInt16(ToInt16(y as int + 1) - 1) == y
    ensures ToInt16(ToInt16(y as int - 1) + 1) == y
  {
    if y == 0x7FFF {
      assert ToInt16(y as int + 1) == -0x8000 by {
        ToInt16Wraps(-0x8000, 1);
      }
    }
    if y == -0x8000 {
      assert ToInt16(y as int - 1) == 0x7FFF by {
        ToInt16Wraps(0x7FFF, -1);
      }
    }
  }

  /** The two outputs of `tdb2tt`: the TT date, and TDB minus TT in seconds. */
  datatype TdbToTt = TdbToTt(julianTt: real, secdiff: real)

  /** The outputs of `cal_date`: year, month, day and hour of day. */
  datatype CalendarDate = CalendarDate(year: Int16, month: Int16, day: Int16, hourPart: real)

  /** The NOVAS C routines used by this file: `tdb2tt`, `julian_date` and `cal_date`. */
  datatype Novas = Novas(
    tdb2tt: real -> TdbToTt,
    julianDate: (Int16, Int16, Int16, real) -> real,
    calDate: real -> CalendarDate)

  /** `julian_tdb_to_tt`: the TT output of `tdb2tt`. */
  function JulianTdbToTt(novas: Novas, julianTdb: real): real
  {
    novas.tdb2tt(julianTdb).julianTt
  }

  /**
   * `julian_tt_to_tdb`: TT plus the TDB-TT difference that `tdb2tt` gives for TT read as TDB,
   * so TDB runs ahead of TT by exactly that many seconds.
   */
  function JulianTtToTdb(novas: Novas, julianTt: real): (r: real)
    ensures (r - julianTt) * SecsPerDay == novas.tdb2tt(julianTt).secdiff
  {
    julianTt + novas.tdb2tt(julianTt).secdiff / SecsPerDay
  }

  /**
   * When `tdb2tt` is self-consistent (its TT is TDB less its difference) and gives the same
   * difference at the TT it returns, TT -> TDB undoes TDB -> TT.
   */
  lemma TdbTtRoundTrip(novas: Novas, julianTdb: real)
    requires novas.tdb2tt(julianTdb).julianTt == julianTdb - novas.tdb2tt(julianTdb).secdiff / SecsPerDay
    requires novas.tdb2tt(JulianTdbToTt(novas, julianTdb)).secdiff == novas.tdb2tt(julianTdb).secdiff
    ensures JulianTtToTdb(novas, JulianTdbToTt(novas, julianTdb)) == julianTdb
  {
  }

  /**
   * The other order: when `tdb2tt` is self-consistent at the TDB that `julian_tt_to_tdb`
   * returns and gives the same difference there as at TT, TDB -> TT undoes TT -> TDB.
   */
  lemma TtTdbRoundTrip(novas: Novas, julianTt: real)
    requires var tdb := JulianTtToTdb(novas, julianTt);
      novas.tdb2tt(tdb).julianTt == tdb - novas.tdb2tt(tdb).secdiff / SecsPerDay
    requires novas.tdb2tt(JulianTtToTdb(novas, julianTt)).secdiff == novas.tdb2tt(julianTt).secdiff
    ensures JulianTdbToTt(novas, JulianTtToTdb(novas, julianTt)) == julianTt
  {
  }

  /** The hour argument of `julian_date_from_values`: the time of day gathered into seconds, then hours. */
  function HourPart(hour: int, min: int, secs: real): (r: real)
    ensures r == hour as real + min as real / 60.0 + secs / 3600.0
  {
    var hourPart := (hour as real) * 3600.0 + (min as real) * 60.0 + secs;
    hourPart / 3600.0
  }

  /**
   * `julian_date_from_values`: the `int` calendar fields are narrowed to `short` by the call,
   * which leaves them unchanged in the `short` range, and the time of day is passed as hours.
   */
  function JulianDateFromValues(novas: Novas, year: int, month: int, day: int, hour: int, min: int, secs: real): (r: real)
    ensures -0x8000 <= year < 0x8000 && -0x8000 <= month < 0x8000 && -0x8000 <= day < 0x8000 ==>
              r == novas.julianDate(year, month, day, hour as real + min as real / 60.0 + secs / 3600.0)
  {
    novas.julianDate(ToInt16(year), ToInt16(month), ToInt16(day), HourPart(hour, min, secs))
  }

  // ---------------------------------------------------------------------------
  // UT1 and Delta T from an Earth-orientation record

  /** UT1 for a UTC date: the record's UT1-UTC is in seconds, so it is divided by 86400. */
  function Ut1Of(julianUtc: real, fd: FinalsRecord): (r: real)
    ensures (r - julianUtc) * SecsPerDay == fd.ut1Utc
  {
    julianUtc + fd.ut1Utc / SecsPerDay
  }

  /** Delta T in seconds, 32.184 + (TAI - UTC) - (UT1 - UTC): TT minus UT1, counted in seconds. */
  function DeltaTOf(julianUtc: real, fd: FinalsRecord): (r: real)
    ensures r == (JulianUtcToTt(julianUtc) - Ut1Of(julianUtc, fd)) * SecsPerDay
  {
    var leap := LeapSecTaiUtc(julianUtc);
    assert JulianUtcToTt(julianUtc) == julianUtc + (leap + TtMinusTai) / SecsPerDay;
    calc {
      (JulianUtcToTt(julianUtc) - Ut1Of(julianUtc, fd)) * SecsPerDay;
      ((leap + TtMinusTai) / SecsPerDay - fd.ut1Utc / SecsPerDay) * SecsPerDay;
      leap + TtMinusTai - fd.ut1Utc;
    }
    TtMinusTai + leap - fd.ut1Utc
  }

  /**
   * `from_ut1` sets UTC to UT1 minus UT1-UTC without dividing the seconds by 86400, so
   * the UTC it stores maps back to the given UT1 (by the conversion `as_ut1` uses) only
   * when UT1-UTC is zero.
   */
  lemma FromUt1UtcMapsBack(jdUt1: real, fd: FinalsRecord)
    ensures Ut1Of(jdUt1 - fd.ut1Utc, fd) == jdUt1 <==> fd.ut1Utc == 0.0
  {
    assert Ut1Of(jdUt1 - fd.ut1Utc, fd) - jdUt1 == fd.ut1Utc * (1.0 / SecsPerDay - 1.0);
  }

  // ---------------------------------------------------------------------------
  // Calendar navigation

  /** A calendar year and month as `cal_date` gives them. */
  datatype YearMonth = YearMonth(year: Int16, month: Int16)

  /**
   * The month step of `next_month_start`: for a real month, the following one, with December
   * rolling over to January of the next year.
   */
  function NextMonth(ym: YearMonth): (r: YearMonth)
    ensures 1 <= ym.month <= 12 ==> 1 <= r.month <= 12
    ensures 1 <= ym.month < 12 ==> r == YearMonth(ym.year, ym.month + 1)
    ensures ym.month == 12 ==> r == YearMonth(ToInt16(ym.year as int + 1), 1)
  {
    var month := ToInt16(ym.month as int + 1);
    if month > 12 then YearMonth(ToInt16(ym.year as int + 1), 1) else YearMonth(ym.year, month)
  }

  /**
   * The month step of `prev_month_start`: for a real month, the one before, with January
   * rolling back to December of the year before.
   */
  function PrevMonth(ym: YearMonth): (r: YearMonth)
    ensures 1 <= ym.month <= 12 ==> 1 <= r.month <= 12
    ensures 1 < ym.month <= 12 ==> r == YearMonth(ym.year, ym.month - 1)
    ensures ym.month == 1 ==> r == YearMonth(ToInt16(ym.year as int - 1), 12)
  {
    var month := ToInt16(ym.month as int - 1);
    if month <= 0 then YearMonth(ToInt16(ym.year as int - 1), 12) else YearMonth(ym.year, month)
  }

  /** Going a month forward and a month back (or back and forward) returns to the same month. */
  lemma MonthStepsInverse(ym: YearMonth)
    requires 1 <= ym.month <= 12
    ensures PrevMonth(NextMonth(ym)) == ym
    ensures NextMonth(PrevMonth(ym)) == ym
  {
    ToInt16StepInverse(ym.year);
  }

  /** Two month steps from a real month land on a real month. */
  lemma MonthAfterNextOfMonth(ym: YearMonth)
    requires 1 <= ym.month <= 12
    ensures 1 <= NextMonth(NextMonth(ym)).month <= 12
    ensures ym.month <= 10 ==> NextMonth(NextMonth(ym)) == YearMonth(ym.year, ym.month + 2)
    ensures ym.month >= 11 ==> NextMonth(NextMonth(ym)) == YearMonth(ToInt16(ym.year as int + 1), ym.month - 10)
  {
  }

  // ---------------------------------------------------------------------------
  // The instant

  class AstroTime {
    var julianTt: real
    var julianUtc: real
    var julianUt1: Option<real>        // NaN until computed
    var julianTdb: real
    var cachedFinals: FinalsRecord     // date NaN until fetched

    /** The default instant: every scale 0 except UT1, which is unset, and nothing cached. */
    constructor ()
      ensures julianTt == 0.0 && julianUtc == 0.0 && julianUt1 == None && julianTdb == 0.0
      ensures cachedFinals == DefaultRecord
    {
      julianTt := 0.0;
      julianUtc := 0.0;
      julianUt1 := None;
      julianTdb := 0.0;
      cachedFinals := DefaultRecord;
    }

    /** The state `from_utc` leaves for the UTC date `jd`. */
    ghost predicate HoldsUtc(novas: Novas, jd: real)
      reads this
    {
      && julianUtc == jd
      && julianTt == JulianUtcToTt(jd)
      && julianTdb == JulianTtToTdb(novas, julianTt)
      && julianUt1 == None
      && cachedFinals == DefaultRecord
    }

    /** `from_tt`: TT as given, UTC and TDB derived from it, UT1 unset. */
    static method FromTt(novas: Novas, jdTt: real) returns (st: AstroTime)
      ensures fresh(st)
      ensures st.julianTt == jdTt
      ensures st.julianUtc == JulianTtToUtc(jdTt)
      ensures st.julianTdb == JulianTtToTdb(novas, jdTt)
      ensures st.julianUt1 == None && st.cachedFinals == DefaultRecord
    {
      st := new AstroTime();
      st.julianTt := jdTt;
      st.julianUtc := JulianTtToUtc(jdTt);
      st.julianTdb := JulianTtToTdb(novas, jdTt);
      st.julianUt1 := None;
    }

    /** `from_utc`: UTC as given, TT and TDB derived from it; TT converts back to that UTC. */
    static method FromUtc(novas: Novas, jdUtc: real) returns (st: AstroTime)
      ensures fresh(st)
      ensures st.HoldsUtc(novas, jdUtc)
      ensures JulianTtToUtc(st.julianTt) == jdUtc
    {
      st := new AstroTime();
      st.julianTt := JulianUtcToTt(jdUtc);
      st.julianUtc := jdUtc;
      st.julianTdb := JulianTtToTdb(novas, st.julianTt);
      st.julianUt1 := None;
      UtcTtRoundTrip(jdUtc);
    }

    /**
     * `from_ut1`: fetches the record for the UT1 date read as UTC, then sets UTC to UT1
     * minus the record's UT1-UTC (seconds subtracted from days, as written).
     */
    static method FromUt1(novas: Novas, handler: FinalsDataHandler, jdUt1: real) returns (st: AstroTime)
      ensures fresh(st)
      ensures st.cachedFinals == RecordForTime(handler.values, jdUt1)
      ensures st.julianUtc == jdUt1 - st.cachedFinals.ut1Utc
      ensures st.julianUt1 == Some(jdUt1)
      ensures st.julianTt == JulianUtcToTt(st.julianUtc)
      ensures st.julianTdb == JulianTtToTdb(novas, st.julianTt)
    {
      st := new AstroTime();
      st.julianUtc := jdUt1;
      var fd := st.GetFinalsData(handler);
      st.julianUtc := jdUt1 - st.cachedFinals.ut1Utc;
      st.julianUt1 := Some(jdUt1);
      st.julianTt := JulianUtcToTt(st.julianUtc);
      st.julianTdb := JulianTtToTdb(novas, st.julianTt);
    }

    /** `from_tdb`: TDB as given, TT from `tdb2tt`, UTC from TT, UT1 unset. */
    static method FromTdb(novas: Novas, jdTdb: real) returns (st: AstroTime)
      ensures fresh(st)
      ensures st.julianTt == JulianTdbToTt(novas, jdTdb)
      ensures st.julianUtc == JulianTtToUtc(st.julianTt)
      ensures st.julianTdb == jdTdb
      ensures st.julianUt1 == None && st.cachedFinals == DefaultRecord
    {
      st := new AstroTime();
      st.julianTt := JulianTdbToTt(novas, jdTdb);
      st.julianUtc := JulianTtToUtc(st.julianTt);
      st.julianTdb := jdTdb;
      st.julianUt1 := None;
    }

    /**
     * `from_iso8601`: reads the fields of a "YYYY-MM", "YYYY-MM-DD" or
     * "YYYY-MM-DDThh:mm:ss.sssZ" string and builds the instant from that UTC date; any
     * other string is refused with the error the C++ code throws.
     */
    static method FromIso8601(novas: Novas, lx: Iso8601.Lexers, timeStr: string)
      returns (r: Result<AstroTime, Iso8601.TimeStringError>)
      requires Iso8601.ValidLexers(lx)
      ensures r.Failure? <==> Iso8601.ParseFields(timeStr, lx).Failure?
      ensures r.Failure? ==> r.error == Iso8601.ParseFields(timeStr, lx).error
      ensures r.Success? ==>
        var f := Iso8601.ParseFields(timeStr, lx).value;
        && fresh(r.value)
        && r.value.HoldsUtc(novas, JulianDateFromValues(novas, f.year, f.month, f.day, f.hours, f.minutes, f.seconds))
    {
      var fields := Iso8601.ParseFields(timeStr, lx);
      if fields.Failure? {
        return Failure(fields.error);
      }
      var f := fields.value;
      var st := FromUtc(novas, JulianDateFromValues(novas, f.year, f.month, f.day, f.hours, f.minutes, f.seconds));
      return Success(st);
    }

    /** `get_finals_data`: queries the table only while nothing is cached, then keeps the record. */
    method GetFinalsData(handler: FinalsDataHandler) returns (r: FinalsRecord)
      modifies this
      ensures old(cachedFinals.julianUtc).None? ==> cachedFinals == RecordForTime(handler.values, julianUtc)
      ensures old(cachedFinals.julianUtc).Some? ==> cachedFinals == old(cachedFinals)
      ensures cachedFinals.julianUtc.Some?
      ensures r == cachedFinals
      ensures julianTt == old(julianTt) && julianUtc == old(julianUtc)
      ensures julianUt1 == old(julianUt1) && julianTdb == old(julianTdb)
    {
      if cachedFinals.julianUtc.None? {
        cachedFinals := handler.FinalsDataForTime(julianUtc);
      }
      return cachedFinals;
    }

    /**
     * `as_ut1`: on the first fetch of the record, UT1 is computed from it; once anything is
     * cached UT1 is returned as stored, which is unset if the record was fetched by an
     * earlier `get_finals_data` call.
     */
    method AsUt1(handler: FinalsDataHandler) returns (r: Option<real>)
      modifies this
      ensures old(cachedFinals.julianUtc).None? ==>
        && cachedFinals == RecordForTime(handler.values, julianUtc)
        && julianUt1 == Some(Ut1Of(julianUtc, cachedFinals))
      ensures old(cachedFinals.julianUtc).Some? ==> cachedFinals == old(cachedFinals) && julianUt1 == old(julianUt1)
      ensures cachedFinals.julianUtc.Some?
      ensures r == julianUt1
      ensures julianTt == old(julianTt) && julianUtc == old(julianUtc) && julianTdb == old(julianTdb)
    {
      if cachedFinals.julianUtc.None? {
        var fd := GetFinalsData(handler);
        julianUt1 := Some(julianUtc + cachedFinals.ut1Utc / SecsPerDay);
      }
      return julianUt1;
    }

    /** `delta_t`: fills the cache as `as_ut1` does, then gives TT - UT1 in seconds. */
    method DeltaT(handler: FinalsDataHandler) returns (r: real)
      modifies this
      ensures old(cachedFinals.julianUtc).None? ==>
        && cachedFinals == RecordForTime(handler.values, julianUtc)
        && julianUt1 == Some(Ut1Of(julianUtc, cachedFinals))
      ensures old(cachedFinals.julianUtc).Some? ==> cachedFinals == old(cachedFinals) && julianUt1 == old(julianUt1)
      ensures r == DeltaTOf(julianUtc, cachedFinals)
      ensures julianTt == old(julianTt) && julianUtc == old(julianUtc) && julianTdb == old(julianTdb)
    {
      if cachedFinals.julianUtc.None? {
        var fd := GetFinalsData(handler);
        julianUt1 := Some(julianUtc + cachedFinals.ut1Utc / SecsPerDay);
      }
      return TtMinusTai + LeapSecTaiUtc(julianUtc) - cachedFinals.ut1Utc;
    }

    /** 1 January, 0h, of this instant's UTC year shifted by `years` (in `short` arithmetic). */
    function YearStartDate(novas: Novas, years: int): real
      reads this
    {
      novas.julianDate(ToInt16(novas.calDate(julianUtc).year as int + years), 1, 1, 0.0)
    }

    /** `prev_year_start`: the start of the year before this instant's UTC year. */
    method PrevYearStart(novas: Novas) returns (t: AstroTime)
      ensures fresh(t)
      ensures t.HoldsUtc(novas, YearStartDate(novas, -1))
    {
      var date := novas.calDate(julianUtc);
      t := FromUtc(novas, novas.julianDate(ToInt16(date.year as int - 1), 1, 1, 0.0));
    }

    /** `year_start`: the start of this instant's UTC year. */
    method YearStart(novas: Novas) returns (t: AstroTime)
      ensures fresh(t)
      ensures t.HoldsUtc(novas, YearStartDate(novas, 0))
    {
      var date := novas.calDate(julianUtc);
      t := FromUtc(novas, novas.julianDate(date.year, 1, 1, 0.0));
    }

    /** `next_year_start`: the start of the year after this instant's UTC year. */
    method NextYearStart(novas: Novas) returns (t: AstroTime)
      ensures fresh(t)
      ensures t.HoldsUtc(novas, YearStartDate(novas, 1))
    {
      var date := novas.calDate(julianUtc);
      t := FromUtc(novas, novas.julianDate(ToInt16(date.year as int + 1), 1, 1, 0.0));
    }

    /** `year_after_next_year_start`: the start of the year two after this instant's UTC year. */
    method YearAfterNextYearStart(novas: Novas) returns (t: AstroTime)
      ensures fresh(t)
      ensures t.HoldsUtc(novas, YearStartDate(novas, 2))
    {
      var date := novas.calDate(julianUtc);
      t := FromUtc(novas, novas.julianDate(ToInt16(date.year as int + 2), 1, 1, 0.0));
    }

    /** The year and month of this instant's UTC date. */
    function CurrentMonth(novas: Novas): YearMonth
      reads this
    {
      YearMonth(novas.calDate(julianUtc).year, novas.calDate(julianUtc).month)
    }

    /** The first of the month `ym`, at 0h. */
    static function MonthStartDate(novas: Novas, ym: YearMonth): real
    {
      novas.julianDate(ym.year, ym.month, 1, 0.0)
    }

    /** `prev_month_start`: the first of the month before, at 0h. */
    method PrevMonthStart(novas: Novas) returns (t: AstroTime)
      ensures fresh(t)
      ensures t.HoldsUtc(novas, MonthStartDate(novas, PrevMonth(CurrentMonth(novas))))
    {
      var date := novas.calDate(julianUtc);
      var year, month := date.year, date.month;
      month := ToInt16(month as int - 1);
      if month <= 0 {
        month := 12;
        year := ToInt16(year as int - 1);
      }
      t := FromUtc(novas, novas.julianDate(year, month, 1, 0.0));
    }

    /** `month_start`: the first of this instant's UTC month, at 0h. */
    method MonthStart(novas: Novas) returns (t: AstroTime)
      ensures fresh(t)
      ensures t.HoldsUtc(novas, MonthStartDate(novas, CurrentMonth(novas)))
    {
      var date := novas.calDate(julianUtc);
      t := FromUtc(novas, novas.julianDate(date.year, date.month, 1, 0.0));
    }

    /** `next_month_start`: the first of the month after, at 0h. */
    method NextMonthStart(novas: Novas) returns (t: AstroTime)
      ensures fresh(t)
      ensures t.HoldsUtc(novas, MonthStartDate(novas, NextMonth(CurrentMonth(novas))))
    {
      var date := novas.calDate(julianUtc);
      var year, month := date.year, date.month;
      month := ToInt16(month as int + 1);
      if month > 12 {
        month := 1;
        year := ToInt16(year as int + 1);
      }
      t := FromUtc(novas, novas.julianDate(year, month, 1, 0.0));
    }

    /** `month_after_next_month_start`: the month step taken twice. */
    method MonthAfterNextMonthStart(novas: Novas) returns (t: AstroTime)
      ensures fresh(t)
      ensures t.HoldsUtc(novas, MonthStartDate(novas, NextMonth(NextMonth(CurrentMonth(novas)))))
    {
      var date := novas.calDate(julianUtc);
      var year, month := date.year, date.month;
      month := ToInt16(month as int + 1);
      if month > 12 {
        month := 1;
        year := ToInt16(year as int + 1);
      }
      assert YearMonth(year, month) == NextMonth(CurrentMonth(novas));
      month := ToInt16(month as int + 1);
      if month > 12 {
        month := 1;
        year := ToInt16(year as int + 1);
      }
      t := FromUtc(novas, novas.julianDate(year, month, 1, 0.0));
    }
  }
}
