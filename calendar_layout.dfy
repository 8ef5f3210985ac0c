/**
 * The calendar layout: one column per day of the year, one row per year (later years lower),
 * the time of day placing a photo inside its year's row, with a gap after every month and
 * after every year, the whole plane centred on the origin.
 */
module CalendarLayout {
  import opened Geometry
  import opened IndexFormat
  import opened Preferences
  import opened Tiles
  import opened Images
  import opened Layout

  // ---------------------------------------------------------------------------------------
  // Months

  /** Days per month, with February always given 29 days. */
  const DaysPerMonth: seq<int> := [31, 29, 31, 30, 31, 30, 31, 31, 30, 31, 30, 31]

  /** The number of days in the first m months, month by month. */
  const CumulativeTable: seq<int> := [0, 31, 60, 91, 121, 152, 182, 213, 244, 274, 305, 335, 366]

  function CumulativeDays(m: nat): int
    requires m <= 12
  {
    CumulativeTable[m]
  }

  /**
   * The month counting loop from month index i on, with `day` the days still to go: every
   * month is subtracted in turn while days remain and fewer than twelve have gone.
   */
  function MonthFrom(day: int, i: nat): nat
    requires i <= 12
    decreases 12 - i
  {
    if i < 12 && day > 0 then MonthFrom(day - DaysPerMonth[i], i + 1) else i
  }

  /** What GetMonth returns for a day of the year. */
  function Month(day: int): nat
  {
    MonthFrom(day, 0)
  }

  /** GetMonth, the counting loop itself. */
  method GetMonth(day: int) returns (month: int)
    ensures month == Month(day)
  {
    var d := day;
    var i := 0;
    while i < 12 && d > 0
      invariant 0 <= i <= 12
      invariant MonthFrom(d, i) == Month(day)
    {
      d := d - DaysPerMonth[i];
      i := i + 1;
    }
    month := i;
  }

  /** Each cumulative count adds that month's days to the one before; the year has 366 days. */
  lemma CumulativeDaysAddUp(m: nat)
    requires m < 12
    ensures CumulativeDays(m + 1) == CumulativeDays(m) + DaysPerMonth[m]
    ensures CumulativeDays(0) == 0 && CumulativeDays(12) == 366
  {
  }

  /** Every month has at least one day, so the cumulative counts strictly increase. */
  lemma CumulativeDaysIncrease(a: nat, b: nat)
    requires a < b <= 12
    ensures CumulativeDays(a) < CumulativeDays(b) <= 366
  {
  }

  /**
   * Where the loop, entered at month index i with the days of the first i months already
   * subtracted, stops: at the first month m from i on whose cumulative count reaches the day,
   * or at 12.
   */
  lemma {:induction false} MonthFromStops(day: int, rest: int, i: nat)
    requires i <= 12 && rest == day - CumulativeDays(i) && (i == 0 || day > CumulativeDays(i - 1))
    ensures var m := MonthFrom(rest, i);
      i <= m <= 12
      && (i < 12 && day > CumulativeDays(i) ==> m > i)
      && (m == 12 || day <= CumulativeDays(m))
      && (m == 0 || day > CumulativeDays(m - 1))
    decreases 12 - i
  {
    if i < 12 && rest > 0 {
      CumulativeDaysAddUp(i);
      MonthFromStops(day, rest - DaysPerMonth[i], i + 1);
    }
  }

  /**
   * GetMonth of a day in 1..366 is its month in 1..12: the least m whose first m months
   * reach the day.
   */
  lemma MonthOfDay(day: int)
    requires 1 <= day <= 366
    ensures 1 <= Month(day) <= 12
    ensures CumulativeDays(Month(day) - 1) < day <= CumulativeDays(Month(day))
    ensures forall k :: 1 <= k < Month(day) ==> CumulativeDays(k) < day
  {
    MonthFromStops(day, day, 0);
    var m := Month(day);
    forall k | 1 <= k < m
      ensures CumulativeDays(k) < day
    {
      CumulativeDaysIncrease(k, m);
    }
  }

  /** GetMonth returns 0 for a day that is not positive, not a month in 1..12. */
  lemma MonthOfNonPositiveDay(day: int)
    requires day <= 0
    ensures Month(day) == 0
  {
  }

  /** GetMonth returns 12 for every day past 366. */
  lemma MonthPastYearEnd(day: int)
    requires day > 366
    ensures Month(day) == 12
  {
    MonthFromStops(day, day, 0);
    var m := Month(day);
    if m < 12 {
      CumulativeDaysIncrease(m, 12);
    }
  }

  /** A later day never has an earlier month. */
  lemma MonthMonotone(d1: int, d2: int)
    requires d1 <= d2
    ensures Month(d1) <= Month(d2)
  {
    if d1 > 0 {
      MonthFromStops(d1, d1, 0);
      MonthFromStops(d2, d2, 0);
      MonthsOrdered(d1, d2, Month(d1), Month(d2));
    }
  }

  /**
   * Months m1 and m2 where the loop stopped for days d1 <= d2: d1 is past the first m1 - 1
   * months and d2 within the first m2 (or m2 is 12), so m1 <= m2.
   */
  lemma MonthsOrdered(d1: int, d2: int, m1: nat, m2: nat)
    requires d1 <= d2 && 1 <= m1 <= 12 && m2 <= 12
    requires d1 > CumulativeDays(m1 - 1) && (m2 == 12 || d2 <= CumulativeDays(m2))
    ensures m1 <= m2
  {
    if m2 < m1 - 1 {
      CumulativeDaysIncrease(m2, m1 - 1);
    }
  }

  // ---------------------------------------------------------------------------------------
  // Placement

  /** Half the width of the calendar: 366 day columns and 11 month gaps. */
  function HalfSpanX(cfg: Config): real
  {
    (cfg.calendarColPitch * (DayMaximum - DayMinimum + 1) as real + cfg.monthPadding * 11.0) * 0.5
  }

  /** Half the height of the calendar: one row per year and a gap between years. */
  function HalfSpanY(cfg: Config, minYear: int, maxYear: int): real
  {
    (cfg.calendarRowPitch * (maxYear - minYear + 1) as real + cfg.yearPadding * (maxYear - minYear) as real) * 0.5
  }

  /** The fraction of the day elapsed at the time of day (milliseconds, unsigned arithmetic). */
  function TimeFraction(time: Unsigned): real
  {
    ToUnsigned(time - TimeMinimum) as real / (TimeMaximum - TimeMinimum) as real
  }

  /** How many rows above the last year's the photo's year is (unsigned arithmetic). */
  function RelativeYear(maxYear: int, year: Unsigned): real
  {
    ToUnsigned(maxYear - year) as real
  }

  /** The x of a day column before centring: its offset in columns plus a gap per earlier month. */
  function ColumnAt(cfg: Config, offset: int, month: int): real
  {
    offset as real * cfg.calendarColPitch + (month - 1) as real * cfg.monthPadding
  }

  /** The x of a day before centring; the day's offset from day 1 is taken in unsigned arithmetic. */
  function DayColumn(cfg: Config, day: Unsigned): real
  {
    ColumnAt(cfg, ToUnsigned(day - DayMinimum), Month(ToInt32(day)))
  }

  /** A day in 1..366 is its own offset plus one, and is passed to GetMonth unchanged. */
  lemma DayColumnInRange(cfg: Config, day: Unsigned)
    requires DayMinimum <= day <= DayMaximum
    ensures DayColumn(cfg, day) == ColumnAt(cfg, day - 1, Month(day))
  {
  }

  /** The y before centring of `rel` years above the last and a fraction `frac` of the day. */
  function RowAt(cfg: Config, rel: real, frac: real): real
  {
    (rel + frac) * cfg.calendarRowPitch + rel * cfg.yearPadding
  }

  /** The y of a date before centring: its year's row, a gap per later year, and the time of day. */
  function YearRow(cfg: Config, maxYear: int, year: Unsigned, time: Unsigned): real
  {
    RowAt(cfg, RelativeYear(maxYear, year), TimeFraction(time))
  }

  /** The depth of a tile: spread by time of day around the image plane. */
  function Depth(cfg: Config, time: Unsigned): real
  {
    cfg.imageSize * 0.02 * (TimeFraction(time) - 0.5)
  }

  /** The target of a tile with the given time stamp, in a context spanning minYear..maxYear. */
  function CalendarTarget(cfg: Config, minYear: int, maxYear: int, stamp: TimeStamp): Vec3
  {
    Vec3(DayColumn(cfg, stamp.dayOfYear) + cfg.imageSize * 0.5 - HalfSpanX(cfg),
         YearRow(cfg, maxYear, stamp.year, stamp.timeOfDay) - HalfSpanY(cfg, minYear, maxYear),
         Depth(cfg, stamp.timeOfDay))
  }

  /**
   * A stamp with a day in 1..366, a year in minYear..maxYear and a time within the day, in a
   * context whose last year is an `int`.
   */
  predicate InCalendar(minYear: int, maxYear: int, stamp: TimeStamp)
  {
    DayMinimum <= stamp.dayOfYear <= DayMaximum
    && minYear <= stamp.year <= maxYear <= IntMax
    && stamp.timeOfDay <= TimeMaximum
  }

  /** The time of day of a stamp in range is a fraction in [0, 1]. */
  lemma TimeFractionInRange(time: Unsigned)
    requires time <= TimeMaximum
    ensures 0.0 <= TimeFraction(time) <= 1.0
  {
  }

  /** For a year in range the unsigned difference is the plain one. */
  lemma RelativeYearInRange(maxYear: int, year: Unsigned)
    requires year <= maxYear <= IntMax
    ensures RelativeYear(maxYear, year) == (maxYear - year) as real
  {
  }

  /**
   * With non-negative pitches and padding, every tile of a stamp in range lies within the
   * calendar's width: its day column starts at or right of the left edge and ends, one column
   * pitch on, at or left of the right edge.
   */
  lemma {:induction false} CalendarWithinWidth(cfg: Config, stamp: TimeStamp)
    requires DayMinimum <= stamp.dayOfYear <= DayMaximum
    requires cfg.calendarColPitch >= 0.0 && cfg.monthPadding >= 0.0
    ensures 0.0 <= DayColumn(cfg, stamp.dayOfYear)
    ensures DayColumn(cfg, stamp.dayOfYear) + cfg.calendarColPitch <= 2.0 * HalfSpanX(cfg)
  {
    MonthOfDay(stamp.dayOfYear);
    DayColumnInRange(cfg, stamp.dayOfYear);
    ColumnWithinWidth(cfg, stamp.dayOfYear - 1, Month(stamp.dayOfYear));
  }

  /** The calendar's full width: 366 column pitches and 11 month gaps. */
  lemma FullWidth(cfg: Config)
    ensures 2.0 * HalfSpanX(cfg) == 366.0 * cfg.calendarColPitch + 11.0 * cfg.monthPadding
  {
    assert (DayMaximum - DayMinimum + 1) as real == 366.0;
  }

  /** At most 365 pitches and 11 gaps, plus one pitch, fit in 366 pitches and 11 gaps. */
  lemma ColumnBound(a: real, b: real, p: real, m: real)
    requires 0.0 <= a <= 365.0 && 0.0 <= b <= 11.0 && p >= 0.0 && m >= 0.0
    ensures 0.0 <= a * p + b * m
    ensures a * p + b * m + p <= 366.0 * p + 11.0 * m
  {
    ScaleBounded(a, 365.0, p);
    ScaleBounded(b, 11.0, m);
    var x, y := a * p, b * m;
    assert x + p <= 366.0 * p && y <= 11.0 * m;
  }

  /** Offsets 0..365 and months 1..12 place a column within the width of the calendar. */
  lemma ColumnWithinWidth(cfg: Config, offset: int, month: int)
    requires 0 <= offset <= 365 && 1 <= month <= 12
    requires cfg.calendarColPitch >= 0.0 && cfg.monthPadding >= 0.0
    ensures 0.0 <= ColumnAt(cfg, offset, month)
    ensures ColumnAt(cfg, offset, month) + cfg.calendarColPitch <= 2.0 * HalfSpanX(cfg)
  {
    ColumnBound(offset as real, (month - 1) as real, cfg.calendarColPitch, cfg.monthPadding);
    FullWidth(cfg);
  }

  /**
   * With non-negative pitches and padding, every tile of a stamp in range lies within the
   * calendar's height: its row runs from 0 (the last year at midnight) to the full height.
   */
  lemma {:induction false} CalendarWithinHeight(cfg: Config, minYear: int, maxYear: int, stamp: TimeStamp)
    requires InCalendar(minYear, maxYear, stamp)
    requires cfg.calendarRowPitch >= 0.0 && cfg.yearPadding >= 0.0
    ensures 0.0 <= YearRow(cfg, maxYear, stamp.year, stamp.timeOfDay) <= 2.0 * HalfSpanY(cfg, minYear, maxYear)
  {
    TimeFractionInRange(stamp.timeOfDay);
    RelativeYearInRange(maxYear, stamp.year);
    RowWithinHeight(cfg, maxYear - stamp.year, TimeFraction(stamp.timeOfDay), maxYear - minYear);
  }

  /** Up to `span` years above the last, at any fraction of the day, is within the height. */
  lemma RowWithinHeight(cfg: Config, rel: int, frac: real, span: int)
    requires 0 <= rel <= span && 0.0 <= frac <= 1.0
    requires cfg.calendarRowPitch >= 0.0 && cfg.yearPadding >= 0.0
    ensures 0.0 <= RowAt(cfg, rel as real, frac)
    ensures RowAt(cfg, rel as real, frac) <= cfg.calendarRowPitch * (span + 1) as real + cfg.yearPadding * span as real
  {
    ScaleMonotone(0.0, rel as real + frac, cfg.calendarRowPitch);
    ScaleMonotone(rel as real + frac, (span + 1) as real, cfg.calendarRowPitch);
    ScaleMonotone(0.0, rel as real, cfg.yearPadding);
    ScaleMonotone(rel as real, span as real, cfg.yearPadding);
  }

  /** At the same time of day, a later year sits strictly lower. */
  lemma {:induction false} LaterYearLower(cfg: Config, minYear: int, maxYear: int, s1: TimeStamp, s2: TimeStamp)
    requires InCalendar(minYear, maxYear, s1) && InCalendar(minYear, maxYear, s2)
    requires s1.year < s2.year && s1.timeOfDay == s2.timeOfDay
    requires cfg.calendarRowPitch > 0.0 && cfg.yearPadding >= 0.0
    ensures YearRow(cfg, maxYear, s2.year, s2.timeOfDay) < YearRow(cfg, maxYear, s1.year, s1.timeOfDay)
  {
    RelativeYearInRange(maxYear, s1.year);
    RelativeYearInRange(maxYear, s2.year);
    RowsOrdered(cfg, (maxYear - s2.year) as real, (maxYear - s1.year) as real, TimeFraction(s1.timeOfDay));
  }

  /** Fewer years above the last, at the same time of day, is a lower row. */
  lemma RowsOrdered(cfg: Config, r1: real, r2: real, frac: real)
    requires r1 < r2 && cfg.calendarRowPitch > 0.0 && cfg.yearPadding >= 0.0
    ensures RowAt(cfg, r1, frac) < RowAt(cfg, r2, frac)
  {
    ScaleStrict(r1 + frac, r2 + frac, cfg.calendarRowPitch);
    ScaleMonotone(r1, r2, cfg.yearPadding);
  }

  /** In the same year, a later time of day sits strictly higher, and in front. */
  lemma {:induction false} LaterTimeHigher(cfg: Config, maxYear: int, s1: TimeStamp, s2: TimeStamp)
    requires s1.year == s2.year && s1.timeOfDay < s2.timeOfDay
    requires cfg.calendarRowPitch > 0.0 && cfg.imageSize > 0.0
    ensures YearRow(cfg, maxYear, s1.year, s1.timeOfDay) < YearRow(cfg, maxYear, s2.year, s2.timeOfDay)
    ensures Depth(cfg, s1.timeOfDay) < Depth(cfg, s2.timeOfDay)
  {
    var f1, f2 := TimeFraction(s1.timeOfDay), TimeFraction(s2.timeOfDay);
    var rel := RelativeYear(maxYear, s1.year);
    assert f1 < f2;
    ScaleStrict(rel + f1, rel + f2, cfg.calendarRowPitch);
    ScaleStrict(f1 - 0.5, f2 - 0.5, cfg.imageSize * 0.02);
  }

  /** A later day sits strictly further right. */
  lemma {:induction false} LaterDayRight(cfg: Config, s1: TimeStamp, s2: TimeStamp)
    requires DayMinimum <= s1.dayOfYear < s2.dayOfYear <= DayMaximum
    requires cfg.calendarColPitch > 0.0 && cfg.monthPadding >= 0.0
    ensures DayColumn(cfg, s1.dayOfYear) < DayColumn(cfg, s2.dayOfYear)
  {
    MonthMonotone(s1.dayOfYear, s2.dayOfYear);
    DayColumnInRange(cfg, s1.dayOfYear);
    DayColumnInRange(cfg, s2.dayOfYear);
    ColumnsOrdered(cfg, s1.dayOfYear - 1, Month(s1.dayOfYear), s2.dayOfYear - 1, Month(s2.dayOfYear));
  }

  /** A larger offset in a month no earlier gives a column further right. */
  lemma ColumnsOrdered(cfg: Config, o1: int, m1: int, o2: int, m2: int)
    requires o1 < o2 && m1 <= m2
    requires cfg.calendarColPitch > 0.0 && cfg.monthPadding >= 0.0
    ensures ColumnAt(cfg, o1, m1) < ColumnAt(cfg, o2, m2)
  {
    ScaleStrict(o1 as real, o2 as real, cfg.calendarColPitch);
    ScaleMonotone((m1 - 1) as real, (m2 - 1) as real, cfg.monthPadding);
  }

  /**
   * The depth of a tile offsets it by at most one hundredth of the image size, behind for
   * times before noon and in front after, so overlapping tiles do not share a depth.
   */
  lemma {:induction false} DepthWithinOnePercent(cfg: Config, time: Unsigned)
    requires time <= TimeMaximum && cfg.imageSize >= 0.0
    ensures -0.01 * cfg.imageSize <= Depth(cfg, time) <= 0.01 * cfg.imageSize
  {
    TimeFractionInRange(time);
    var f := TimeFraction(time);
    ScaleMonotone(-0.5, f - 0.5, cfg.imageSize * 0.02);
    ScaleMonotone(f - 0.5, 0.5, cfg.imageSize * 0.02);
  }

  // ---------------------------------------------------------------------------------------
  // The layout pass

  /** The placement arithmetic of DoLayout for one tile's date. */
  method Place(cfg: Config, minYear: int, maxYear: int, halfX: real, halfY: real,
               time: Unsigned, day: Unsigned, year: Unsigned) returns (target: Vec3)
    requires halfX == HalfSpanX(cfg) && halfY == HalfSpanY(cfg, minYear, maxYear)
    ensures target == CalendarTarget(cfg, minYear, maxYear, TimeStamp(time, day, year))
  {
    var frac := ToUnsigned(time - TimeMinimum) as real / (TimeMaximum - TimeMinimum) as real;
    assert frac == TimeFraction(time);
    var rel := ToUnsigned(maxYear - year) as real;
    assert rel == RelativeYear(maxYear, year);
    var offset := ToUnsigned(day - DayMinimum);
    var month := GetMonth(ToInt32(day));
    var x := ColumnAt(cfg, offset, month);
    var y := (rel + frac) * cfg.calendarRowPitch + rel * cfg.yearPadding;
    assert y == RowAt(cfg, rel, frac);
    var z := cfg.imageSize * 0.02 * (frac - 0.5);
    target := Vec3(x + cfg.imageSize * 0.5 - halfX, y - halfY, z);
  }

  /** A tile sent from `from` toward its calendar target in a context spanning minYear..maxYear. */
  ghost predicate Laid(t: ImageTile, cfg: Config, minYear: int, maxYear: int, from: Vec3)
    reads t
  {
    SentTo(t, CalendarTarget(cfg, minYear, maxYear, t.Stamp()), cfg, from)
  }

  /**
   * DoLayout: every tile is sent from where it stands toward its calendar target, with the
   * image move time, and given the image size; the context itself, each tile's position and
   * its thumbnail choice are unchanged. Returns the spans handed to the camera boundaries.
   */
  method DoLayout(ctx: ImageContext, cfg: Config) returns (spanX: real, spanY: real)
    requires ctx.Valid()
    modifies ctx.tiles`start, ctx.tiles`goal, ctx.tiles`moveTotalTime, ctx.tiles`moveTime, ctx.tiles`size
    ensures ctx.Valid()
    ensures forall i :: 0 <= i < |ctx.tiles| ==>
      ctx.tiles[i].active == old(ctx.tiles[i].active) && ctx.tiles[i].pos == old(ctx.tiles[i].pos)
    ensures spanX == 2.0 * HalfSpanX(cfg) && spanY == 2.0 * HalfSpanY(cfg, ctx.minYear, ctx.maxYear)
    ensures forall i :: 0 <= i < |ctx.tiles| ==> Laid(ctx.tiles[i], cfg, ctx.minYear, ctx.maxYear, old(ctx.tiles[i].pos))
  {
    var halfX := HalfSpanX(cfg);
    var halfY := HalfSpanY(cfg, ctx.minYear, ctx.maxYear);
    var i := 0;
    while i < ctx.count
      invariant 0 <= i <= ctx.count && ctx.Valid()
      invariant forall j :: 0 <= j < i ==> Laid(ctx.tiles[j], cfg, ctx.minYear, ctx.maxYear, old(ctx.tiles[j].pos))
      invariant forall j :: i <= j < |ctx.tiles| ==> unchanged(ctx.tiles[j])
    {
      var t := ctx.GetImage(i);
      var time, day, year := t.GetTimeStamp();
      var target := Place(cfg, ctx.minYear, ctx.maxYear, halfX, halfY, time, day, year);
      t.MoveTo(target, cfg.imageMoveTime);
      t.SetSize(cfg.imageSize, cfg.imageSize);
      assert Laid(t, cfg, ctx.minYear, ctx.maxYear, old(t.pos));
      i := i + 1;
    }
    spanX, spanY := halfX * 2.0, halfY * 2.0;
  }
}
