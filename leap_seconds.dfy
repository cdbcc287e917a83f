/**
 * The IERS Bulletin C leap-second table, its `lower_bound` lookup, and the UTC <-> TT
 * conversions built on it:  TAI = UTC + leap seconds,  TT = TAI + 32.184 s.
 */
module LeapSeconds {

  const SecsPerDay: real := 86400.0

  /** TT - TAI in seconds. */
  const TtMinusTai: real := 32.184

  /** One table entry: the civil date a TAI-UTC offset takes effect, its Julian date, and the offset. */
  datatype LeapSecond = LeapSecond(year: int, month: int, day: int, jd: real, taiUtc: real)

  const Table: seq<LeapSecond> := [
    LeapSecond(1972, 1, 1, 2441317.5, 10.0),
    LeapSecond(1972, 7, 1, 2441499.5, 11.0),
    LeapSecond(1973, 1, 1, 2441683.5, 12.0),
    LeapSecond(1974, 1, 1, 2442048.5, 13.0),
    LeapSecond(1975, 1, 1, 2442413.5, 14.0),
    LeapSecond(1976, 1, 1, 2442778.5, 15.0),
    LeapSecond(1977, 1, 1, 2443144.5, 16.0),
    LeapSecond(1978, 1, 1, 2443509.5, 17.0),
    LeapSecond(1979, 1, 1, 2443874.5, 18.0),
    LeapSecond(1980, 1, 1, 2444239.5, 19.0),
    LeapSecond(1981, 7, 1, 2444786.5, 20.0),
    LeapSecond(1982, 7, 1, 2445151.5, 21.0),
    LeapSecond(1983, 7, 1, 2445516.5, 22.0),
    LeapSecond(1985, 7, 1, 2446247.5, 23.0),
    LeapSecond(1988, 1, 1, 2447161.5, 24.0),
    LeapSecond(1990, 1, 1, 2447892.5, 25.0),
    LeapSecond(1991, 1, 1, 2448257.5, 26.0),
    LeapSecond(1992, 7, 1, 2448804.5, 27.0),
    LeapSecond(1993, 7, 1, 2449169.5, 28.0),
    LeapSecond(1994, 7, 1, 2449534.5, 29.0),
    LeapSecond(1996, 1, 1, 2450083.5, 30.0),
    LeapSecond(1997, 7, 1, 2450630.5, 31.0),
    LeapSecond(1999, 1, 1, 2451179.5, 32.0),
    LeapSecond(2006, 1, 1, 2453736.5, 33.0),
    LeapSecond(2009, 1, 1, 2454832.5, 34.0),
    LeapSecond(2012, 7, 1, 2456109.5, 35.0),
    LeapSecond(2015, 7, 1, 2457204.5, 36.0),
    LeapSecond(2017, 1, 1, 2457754.5, 37.0)
  ]

  /** Effective dates strictly increase. */
  ghost predicate SortedByDate(t: seq<LeapSecond>)
  {
    forall i, j :: 0 <= i < j < |t| ==> t[i].jd < t[j].jd
  }

  /**
   * What the conversions rely on: entries at least a day apart, offsets positive, strictly
   * increasing, and below 40 seconds.
   */
  ghost predicate WellFormed(t: seq<LeapSecond>)
  {
    && |t| > 0
    && SortedByDate(t)
    && (forall i :: 0 <= i < |t| - 1 ==> t[i].jd + 1.0 <= t[i + 1].jd)
    && (forall i :: 0 <= i < |t| - 1 ==> t[i].taiUtc < t[i + 1].taiUtc)
    && (forall i :: 0 <= i < |t| ==> 0.0 < t[i].taiUtc < 40.0)
  }

  lemma {:induction false} ConsecutiveGivesSorted(t: seq<LeapSecond>)
    requires forall i :: 0 <= i < |t| - 1 ==> t[i].jd + 1.0 <= t[i + 1].jd
    ensures SortedByDate(t)
    decreases |t|
  {
    if |t| > 1 {
      ConsecutiveGivesSorted(t[1..]);
      forall i, j | 0 <= i < j < |t| ensures t[i].jd < t[j].jd {
        if i > 0 {
          assert t[1..][i - 1] == t[i] && t[1..][j - 1] == t[j];
        } else if j > 1 {
          assert t[1..][0] == t[1] && t[1..][j - 1] == t[j];
        }
      }
    }
  }

  lemma TableGaps()
    ensures forall i :: 0 <= i < |Table| - 1 ==> Table[i].jd + 1.0 <= Table[i + 1].jd
  {
  }

  lemma TableOffsetsIncrease()
    ensures forall i :: 0 <= i < |Table| - 1 ==> Table[i].taiUtc < Table[i + 1].taiUtc
  {
  }

  lemma TableOffsetsBounded()
    ensures forall i :: 0 <= i < |Table| ==> 0.0 < Table[i].taiUtc < 40.0
  {
  }

  lemma TableWellFormed()
    ensures WellFormed(Table)
  {
    TableGaps();
    TableOffsetsIncrease();
    TableOffsetsBounded();
    ConsecutiveGivesSorted(Table);
  }

  /**
   * `std::lower_bound` on [lo, hi) by date: the first index whose date is not before `x`,
   * found by halving the range.
   */
  function LowerBoundIn(t: seq<LeapSecond>, x: real, lo: nat, hi: nat): (i: nat)
    requires lo <= hi <= |t|
    requires SortedByDate(t)
    ensures lo <= i <= hi
    ensures forall k :: lo <= k < i ==> t[k].jd < x
    ensures forall k :: i <= k < hi ==> t[k].jd >= x
    decreases hi - lo
  {
    if lo == hi then lo
    else
      var mid := (lo + hi) / 2;
      if t[mid].jd < x then LowerBoundIn(t, x, mid + 1, hi) else LowerBoundIn(t, x, lo, mid)
  }

  function LowerBound(t: seq<LeapSecond>, x: real): (i: nat)
    requires SortedByDate(t)
    ensures i <= |t|
    ensures forall k :: 0 <= k < i ==> t[k].jd < x
    ensures forall k :: i <= k < |t| ==> t[k].jd >= x
  {
    LowerBoundIn(t, x, 0, |t|)
  }

  /** The lookup in table `t`: 0 before the first entry, the last offset past the end. */
  function LeapAt(t: seq<LeapSecond>, x: real): real
    requires SortedByDate(t)
  {
    var i := LowerBound(t, x);
    if i == 0 then 0.0
    else if i == |t| then t[|t| - 1].taiUtc
    else t[i - 1].taiUtc
  }

  /** The offset that a lower_bound index selects. */
  function OffsetBefore(t: seq<LeapSecond>, i: nat): real
    requires i <= |t|
  {
    if i == 0 then 0.0 else t[i - 1].taiUtc
  }

  lemma LeapAtIsOffsetBefore(t: seq<LeapSecond>, x: real)
    requires SortedByDate(t)
    ensures LeapAt(t, x) == OffsetBefore(t, LowerBound(t, x))
  {
  }

  /** Any index that splits the table at `x` is the lower bound. */
  lemma LowerBoundUnique(t: seq<LeapSecond>, x: real, i: nat)
    requires SortedByDate(t)
    requires i <= |t|
    requires forall k :: 0 <= k < i ==> t[k].jd < x
    requires forall k :: i <= k < |t| ==> t[k].jd >= x
    ensures LowerBound(t, x) == i
  {
    var j := LowerBound(t, x);
    assert j < |t| ==> t[j].jd >= x;
    assert i < |t| ==> t[i].jd >= x;
  }

  /** On a well-formed table the selected offset strictly increases with the index. */
  lemma {:induction false} OffsetBeforeIncreasing(t: seq<LeapSecond>, i: nat, j: nat)
    requires WellFormed(t)
    requires i < j <= |t|
    ensures OffsetBefore(t, i) < OffsetBefore(t, j)
    decreases j - i
  {
    if j == i + 1 {
      if i > 0 {
        assert t[i - 1].taiUtc < t[i].taiUtc;
      }
    } else {
      OffsetBeforeIncreasing(t, i, j - 1);
      OffsetBeforeIncreasing(t, j - 1, j);
    }
  }

  lemma LowerBoundMonotone(t: seq<LeapSecond>, x: real, y: real)
    requires SortedByDate(t)
    requires x <= y
    ensures LowerBound(t, x) <= LowerBound(t, y)
  {
    var i, j := LowerBound(t, x), LowerBound(t, y);
    assert j < |t| ==> t[j].jd >= y;
  }

  lemma LeapAtMonotone(t: seq<LeapSecond>, x: real, y: real)
    requires WellFormed(t)
    requires x <= y
    ensures LeapAt(t, x) <= LeapAt(t, y)
  {
    LowerBoundMonotone(t, x, y);
    var i, j := LowerBound(t, x), LowerBound(t, y);
    if i < j {
      OffsetBeforeIncreasing(t, i, j);
    }
  }

  lemma LeapAtBounds(t: seq<LeapSecond>, x: real)
    requires WellFormed(t)
    ensures 0.0 <= LeapAt(t, x) < 40.0
  {
  }

  // ---------------------------------------------------------------------------
  // The source's functions, over the fixed table.

  /** Number of leap seconds (TAI - UTC) in effect at a UTC Julian date. */
  function LeapSecTaiUtc(jdUtc: real): real
  {
    TableWellFormed();
    LeapAt(Table, jdUtc)
  }

  /** There are none before the table, otherwise one of its offsets, from 10 s to 37 s. */
  lemma LeapSecRange(jdUtc: real)
    ensures var r := LeapSecTaiUtc(jdUtc); r == 0.0 || 10.0 <= r <= 37.0
  {
    TableWellFormed();
    assert forall k :: 0 <= k < |Table| ==> 10.0 <= Table[k].taiUtc <= 37.0;
  }

  /** Before and on 1972-01-01 (JD 2441317.5) there are no leap seconds: lower_bound lands on the first entry. */
  lemma LeapSecBeforeTable(jdUtc: real)
    requires jdUtc <= 2441317.5
    ensures LeapSecTaiUtc(jdUtc) == 0.0
  {
    TableWellFormed();
    LowerBoundUnique(Table, jdUtc, 0);
  }

  /**
   * Strictly after entry i's date and up to and including entry i+1's date the offset of
   * entry i applies: on an effective date the previous offset is still used.
   */
  lemma LeapSecBetweenEntries(i: nat, jdUtc: real)
    requires i + 1 < |Table|
    requires Table[i].jd < jdUtc <= Table[i + 1].jd
    ensures LeapSecTaiUtc(jdUtc) == Table[i].taiUtc
  {
    TableWellFormed();
    forall k | 0 <= k < i + 1 ensures Table[k].jd < jdUtc {
      assert Table[k].jd <= Table[i].jd;
    }
    forall k | i + 1 <= k < |Table| ensures Table[k].jd >= jdUtc {
      assert Table[i + 1].jd <= Table[k].jd;
    }
    LowerBoundUnique(Table, jdUtc, i + 1);
  }

  /** After 2017-01-01 (JD 2457754.5) the latest offset, 37 s, applies. */
  lemma LeapSecAfterTable(jdUtc: real)
    requires jdUtc > 2457754.5
    ensures LeapSecTaiUtc(jdUtc) == 37.0
  {
    TableWellFormed();
    forall k | 0 <= k < |Table| ensures Table[k].jd < jdUtc {
      assert Table[k].jd <= Table[|Table| - 1].jd;
    }
    LowerBoundUnique(Table, jdUtc, |Table|);
  }

  /** The number of leap seconds never decreases with time. */
  lemma LeapSecMonotone(x: real, y: real)
    requires x <= y
    ensures LeapSecTaiUtc(x) <= LeapSecTaiUtc(y)
  {
    TableWellFormed();
    LeapAtMonotone(Table, x, y);
  }

  /** UTC -> TT over a leap-second table `t`. */
  function UtcToTtOn(t: seq<LeapSecond>, julianUtc: real): real
    requires SortedByDate(t)
  {
    julianUtc + (LeapAt(t, julianUtc) + TtMinusTai) / SecsPerDay
  }

  /** TT -> UTC over a leap-second table `t`, with the two lookups of `tt_to_utc`. */
  function TtToUtcOn(t: seq<LeapSecond>, julianTt: real): real
    requires SortedByDate(t)
  {
    var julianTai := julianTt - (TtMinusTai / SecsPerDay);
    var leapForTai := LeapAt(t, julianTai);
    var leapForUtc := LeapAt(t, julianTai - (leapForTai / SecsPerDay));
    if leapForTai == leapForUtc then
      julianTt - (leapForTai + TtMinusTai) / SecsPerDay
    else
      julianTt - (leapForUtc + TtMinusTai) / SecsPerDay
  }

  /**
   * UTC -> TT: add the leap seconds at that UTC instant and 32.184 s, so TT is ahead of UTC
   * by 32.184 s at least and by 69.184 s at most.
   */
  function JulianUtcToTt(julianUtc: real): (r: real)
    ensures TtMinusTai / SecsPerDay <= r - julianUtc <= (37.0 + TtMinusTai) / SecsPerDay
  {
    LeapSecRange(julianUtc);
    TableWellFormed();
    UtcToTtOn(Table, julianUtc)
  }

  /**
   * TT -> UTC. The leap-second count is looked up at the provisional TAI; then again at TAI
   * minus that count, which is the UTC instant when the first lookup crossed a leap boundary.
   * Either way UTC is behind TT by 32.184 s at least and by 69.184 s at most.
   */
  function JulianTtToUtc(julianTt: real): (r: real)
    ensures TtMinusTai / SecsPerDay <= julianTt - r <= (37.0 + TtMinusTai) / SecsPerDay
  {
    var julianTai := julianTt - (TtMinusTai / SecsPerDay);
    LeapSecRange(julianTai);
    LeapSecRange(julianTai - (LeapSecTaiUtc(julianTai) / SecsPerDay));
    TableWellFormed();
    TtToUtcOn(Table, julianTt)
  }

  /**
   * The second lookup in TT -> UTC finds the leap-second count of the original UTC instant,
   * on any well-formed table.
   */
  lemma SecondLookupRecoversUtc(t: seq<LeapSecond>, u: real)
    requires WellFormed(t)
    ensures var tai := u + LeapAt(t, u) / SecsPerDay;
            LeapAt(t, tai - LeapAt(t, tai) / SecsPerDay) == LeapAt(t, u)
  {
    var s := LeapAt(t, u);
    var tai := u + s / SecsPerDay;
    var lt := LeapAt(t, tai);
    var v := tai - lt / SecsPerDay;
    LeapAtBounds(t, u);
    LeapAtMonotone(t, u, tai);
    LeapAtBounds(t, tai);
    if lt != s {
      var i, j := LowerBound(t, u), LowerBound(t, tai);
      LeapAtIsOffsetBefore(t, u);
      LeapAtIsOffsetBefore(t, tai);
      LowerBoundMonotone(t, u, tai);
      assert i < j;
      assert t[i].jd < tai && t[i].jd >= u;
      assert i > 0;
      forall k | 0 <= k < i ensures t[k].jd < v {
        assert t[k].jd <= t[i - 1].jd;
        assert t[i - 1].jd + 1.0 <= t[i].jd;
      }
      forall k | i <= k < |t| ensures t[k].jd >= v {
        assert t[k].jd >= t[i].jd;
      }
      LowerBoundUnique(t, v, i);
      LeapAtIsOffsetBefore(t, v);
    }
  }

  /** On any well-formed table, TT -> UTC undoes UTC -> TT. */
  lemma RoundTripOn(t: seq<LeapSecond>, u: real)
    requires WellFormed(t)
    ensures TtToUtcOn(t, UtcToTtOn(t, u)) == u
  {
    SecondLookupRecoversUtc(t, u);
    var tt := UtcToTtOn(t, u);
    assert tt - (TtMinusTai / SecsPerDay) == u + LeapAt(t, u) / SecsPerDay;
  }

  /** TT -> UTC undoes UTC -> TT for every UTC instant, leap-second windows included. */
  lemma UtcTtRoundTrip(u: real)
    ensures JulianTtToUtc(JulianUtcToTt(u)) == u
  {
    TableWellFormed();
    RoundTripOn(Table, u);
  }
}
