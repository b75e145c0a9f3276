/** Calendar components of a UTC timestamp held as whole seconds since
    1970-01-01T00:00:00Z, as Python's `datetime` exposes them (`year`,
    `day`, `hour`, `minute`, `second`). The civil date is computed with the
    proleptic Gregorian days-to-civil algorithm; Dafny's `/` and `%` with a
    positive divisor round toward minus infinity, which is what the algorithm
    needs for instants before 1970. */
module Calendar {

  const SecondsPerDay: int := 86400

  datatype Civil = Civil(year: int, month: int, day: int)

  /** Whole days since 1970-01-01, rounded down. */
  function EpochDay(t: int): int
  {
    t / SecondsPerDay
  }

  /** Seconds elapsed since midnight UTC. */
  function SecondOfDay(t: int): (s: int)
    ensures 0 <= s < SecondsPerDay
    ensures t == EpochDay(t) * SecondsPerDay + s
  {
    t % SecondsPerDay
  }

  /** Year of the 400-year era (0 to 399) for a day of the era, years
      taken to start on 1 March. */
  function YearOfEra(doe: int): int
  {
    (doe - doe / 1460 + doe / 36524 - doe / 146096) / 365
  }

  /** Day of the March-based year (0 to 365). */
  function DayOfYear(doe: int, yoe: int): int
  {
    doe - (365 * yoe + yoe / 4 - yoe / 100)
  }

  /** Month counted from March (0 for March, 11 for February). */
  function MarchMonth(doy: int): int
  {
    (5 * doy + 2) / 153
  }

  function CivilFromDays(days: int): (c: Civil)
    ensures 1 <= c.month <= 12
    ensures 1 <= c.day <= 31
  {
    var z := days + 719468;
    var era := z / 146097;
    var doe := z - era * 146097;
    var yoe := YearOfEra(doe);
    var doy := DayOfYear(doe, yoe);
    var mp := MarchMonth(doy);
    var d := doy - (153 * mp + 2) / 5 + 1;
    var m := if mp < 10 then mp + 3 else mp - 9;
    var y := yoe + era * 400;
    Civil(if m <= 2 then y + 1 else y, m, d)
  }

  function Year(t: int): int
  {
    CivilFromDays(EpochDay(t)).year
  }

  /** Day of the month, 1 to 31 (`datetime.day`). */
  function Day(t: int): (d: int)
    ensures 1 <= d <= 31
  {
    CivilFromDays(EpochDay(t)).day
  }

  function Hour(t: int): (h: int)
    ensures 0 <= h < 24
  {
    SecondOfDay(t) / 3600
  }

  function Minute(t: int): (m: int)
    ensures 0 <= m < 60
  {
    SecondOfDay(t) / 60 % 60
  }

  function Second(t: int): (s: int)
    ensures 0 <= s < 60
  {
    SecondOfDay(t) % 60
  }

  /** `TrackPoint.GetPointSeconds`: the length of a timedelta built from the
      day of the month, hour, minute and second alone; month and year are
      ignored, so instants one month apart can give the same value. */
  function PointSeconds(t: int): (r: int)
    ensures r == Day(t) * SecondsPerDay + SecondOfDay(t)
    ensures SecondsPerDay <= r < 32 * SecondsPerDay
  {
    HourMinuteSecond(t);
    Day(t) * SecondsPerDay + Hour(t) * 3600 + Minute(t) * 60 + Second(t)
  }

  /** The hour, minute and second components together give back the time
      of day. */
  lemma HourMinuteSecond(t: int)
    ensures Hour(t) * 3600 + Minute(t) * 60 + Second(t) == SecondOfDay(t)
  {
    var s := SecondOfDay(t);
    var q := s / 60;
    assert s == q * 60 + s % 60;
    assert q == (q / 60) * 60 + q % 60;
    assert q / 60 == s / 3600;
  }

  /** Within one UTC day the point seconds advance like the timestamps do. */
  lemma {:induction false} PointSecondsSameDay(t1: int, t2: int)
    requires EpochDay(t1) == EpochDay(t2)
    ensures PointSeconds(t2) - PointSeconds(t1) == t2 - t1
  {
    assert t1 == EpochDay(t1) * SecondsPerDay + SecondOfDay(t1);
    assert t2 == EpochDay(t2) * SecondsPerDay + SecondOfDay(t2);
  }

  /** The quirk of the reduced value: the first instant of January and of
      February 1970 give the same point seconds. */
  lemma PointSecondsIgnoresMonth()
    ensures PointSeconds(0) == PointSeconds(31 * SecondsPerDay)
  {
    assert 719468 / 146097 == 4 && 719499 / 146097 == 4;
    assert 135080 / 1460 == 92 && 135080 / 36524 == 3 && 135080 / 146096 == 0;
    assert 135111 / 1460 == 92 && 135111 / 36524 == 3 && 135111 / 146096 == 0;
    assert (135080 - 92 + 3) / 365 == 369 && (135111 - 92 + 3) / 365 == 369;
    assert 369 / 4 == 92 && 369 / 100 == 3;
    assert (5 * 306 + 2) / 153 == 10 && (153 * 10 + 2) / 5 == 306;
    assert (5 * 337 + 2) / 153 == 11 && (153 * 11 + 2) / 5 == 337;
    assert CivilFromDays(0).day == 1;
    assert CivilFromDays(31).day == 1;
  }

  /** Instants before the epoch fall in 1969, which the aggregator's year
      filter rejects. */
  lemma EpochYears()
    ensures Year(0) == 1970 && Year(-1) == 1969
  {
    assert EpochDay(-1) == -1;
    assert 719468 / 146097 == 4 && 719467 / 146097 == 4;
    assert 135080 / 1460 == 92 && 135080 / 36524 == 3 && 135080 / 146096 == 0;
    assert 135079 / 1460 == 92 && 135079 / 36524 == 3 && 135079 / 146096 == 0;
    assert (135080 - 92 + 3) / 365 == 369 && (135079 - 92 + 3) / 365 == 369;
    assert 369 / 4 == 92 && 369 / 100 == 3;
    assert (5 * 306 + 2) / 153 == 10 && (5 * 305 + 2) / 153 == 9;
    assert CivilFromDays(0).year == 1970;
    assert CivilFromDays(-1).year == 1969;
  }

  lemma YearOfEraBounds(doe: int)
    requires 0 <= doe < 146097
    ensures 0 <= YearOfEra(doe) <= 399
  {
    assert doe / 1460 <= doe / 36524 * 40 + 40;
  }

  /** Day 135080 of an era, 1970-01-01 in the era that starts in 1600, is
      the first of its year 369 to reach day 306 (1 January). */
  lemma YearOfEraAtEpoch(doe: int)
    requires 0 <= doe < 146097
    ensures doe >= 135080 ==> YearOfEra(doe) >= 369
    ensures doe < 135080 ==> YearOfEra(doe) <= 369
    ensures YearOfEra(doe) == 369 ==> DayOfYear(doe, 369) == doe - 134774
  {
    assert doe - 1460 < 1460 * (doe / 1460) <= doe;
    if doe >= 135080 {
      assert doe / 36524 >= 3;
      assert doe / 146096 <= 1 && (doe / 146096 == 1 ==> doe / 36524 == 4);
    } else {
      assert doe / 36524 <= 3 && doe / 146096 == 0;
    }
  }

  /** The days from 1970-01-01 on are exactly those that fall in 1970 or
      later. */
  lemma CivilYearFrom1970(days: int)
    ensures CivilFromDays(days).year >= 1970 <==> days >= 0
  {
    var era := (days + 719468) / 146097;
    var doe := days + 719468 - era * 146097;
    MarchYearFrom1970(days, era, doe);
  }

  /** The year arithmetic of `CivilFromDays`, era by era. */
  lemma MarchYearFrom1970(days: int, era: int, doe: int)
    requires era == (days + 719468) / 146097 && doe == days + 719468 - era * 146097
    ensures var yoe := YearOfEra(doe);
      var mp := MarchMonth(DayOfYear(doe, yoe));
      var m := if mp < 10 then mp + 3 else mp - 9;
      yoe + era * 400 + (if m <= 2 then 1 else 0) >= 1970 <==> days >= 0
  {
    YearOfEraBounds(doe);
    if era == 4 {
      YearOfEraAtEpoch(doe);
      var yoe := YearOfEra(doe);
      if yoe == 369 {
        var doy := DayOfYear(doe, yoe);
        assert doe - 1460 < 1460 * (doe / 1460) <= doe;
        assert doy <= 365;
        assert doy >= 306 <==> MarchMonth(doy) >= 10;
      }
    } else {
      assert era >= 5 <==> days >= 0;
    }
  }

  /** An instant's year is 1970 or later exactly when it is not before the
      epoch. */
  lemma YearFrom1970(t: int)
    ensures Year(t) >= 1970 <==> t >= 0
  {
    CivilYearFrom1970(EpochDay(t));
  }
}
