/**
 * The calendar / date-range picker: ISO weekdays, the week and month presets, the
 * 42-day month grid, the two-click range selection and month navigation.
 *
 * A date is its day number counted from 1970-01-01 (a Thursday). `new Date(y, m, d)`
 * follows the Date constructor of ECMAScript: a year from 0 to 99 means 1900 to 1999,
 * then the month is carried into the year by floor division and the day of the month
 * is an offset from the 1st, so out-of-range months and days (`new Date(y, m + 1, 0)`,
 * `new Date(y, -1, 1)`) roll over as they do in JavaScript.
 */
module Calendar {
  import opened Wrappers

  /* ---------------- the proleptic Gregorian calendar ---------------- */

  predicate IsLeap(y: int) {
    (y % 4 == 0 && y % 100 != 0) || y % 400 == 0
  }

  function DaysInMonth(y: int, m: int): (r: int)
    requires 0 <= m < 12
    ensures 28 <= r <= 31
  {
    if m == 1 then (if IsLeap(y) then 29 else 28)
    else if m == 3 || m == 5 || m == 8 || m == 10 then 30
    else 31
  }

  /** Days in the months of year `y` before month `m` (0-based). */
  function DaysBeforeMonth(y: int, m: int): int
    requires 0 <= m < 12
  {
    [0, 31, 59, 90, 120, 151, 181, 212, 243, 273, 304, 334][m]
      + (if m >= 2 && IsLeap(y) then 1 else 0)
  }

  /** Leap years among years 1..n, extended to all integers by floor division. */
  function Leaps(n: int): int {
    n / 4 - n / 100 + n / 400
  }

  /** The day number of January 1st of year `y`. */
  function YearStart(y: int): int {
    365 * (y - 1970) + Leaps(y - 1) - Leaps(1969)
  }

  /** The day number of the 1st of month `m` (0-based) of year `y`. */
  function MonthStart(y: int, m: int): int
    requires 0 <= m < 12
  {
    YearStart(y) + DaysBeforeMonth(y, m)
  }

  /** The year the Date constructor uses: two-digit years are read as 1900 to 1999. */
  function FullYear(y: int): (r: int)
    ensures 0 <= y <= 99 ==> r == 1900 + y
    ensures !(0 <= y <= 99) ==> r == y
  {
    if 0 <= y <= 99 then 1900 + y else y
  }

  /** `new Date(y, m, d)` as a day number. */
  function MakeDate(y: int, m: int, d: int): int {
    MonthStart(FullYear(y) + m / 12, m % 12) + d - 1
  }

  /** `new Date(y, m, d)` on the one day it names, for a month in range. */
  lemma MakeDateInMonth(y: int, m: int, d: int)
    requires 0 <= m < 12
    ensures MakeDate(y, m, d) == MonthStart(FullYear(y), m) + d - 1
  {
    assert m / 12 == 0 && m % 12 == m;
  }

  /** Days of a month are consecutive day numbers, whatever the (normalised) month. */
  lemma MakeDateOffset(y: int, m: int, d: int)
    ensures MakeDate(y, m, d) == MakeDate(y, m, 1) + d - 1
  {
  }

  lemma LeapStep(y: int)
    ensures Leaps(y) - Leaps(y - 1) == if IsLeap(y) then 1 else 0
  {
    StepOf4(y);
    StepOf100(y);
    StepOf400(y);
    assert y % 100 == 0 ==> y % 4 == 0;
    assert y % 400 == 0 ==> y % 100 == 0;
  }

  /* Floor division by 4, 100 and 400 steps up exactly at the multiples. */

  lemma StepOf4(y: int)
    ensures y / 4 - (y - 1) / 4 == if y % 4 == 0 then 1 else 0
  {
  }

  lemma StepOf100(y: int)
    ensures y / 100 - (y - 1) / 100 == if y % 100 == 0 then 1 else 0
  {
  }

  lemma StepOf400(y: int)
    ensures y / 400 - (y - 1) / 400 == if y % 400 == 0 then 1 else 0
  {
  }

  /** A year has 365 days, or 366 in a leap year. */
  lemma YearLength(y: int)
    ensures YearStart(y + 1) == YearStart(y) + if IsLeap(y) then 366 else 365
  {
    LeapStep(y);
  }

  /** The year of the month before month `m` of year `y`. */
  function YearOfMonthBefore(y: int, m: int): (r: int)
    ensures m == 0 ==> r == y - 1
    ensures m != 0 ==> r == y
  {
    if m == 0 then y - 1 else y
  }

  /** The month before month `m`: December before January. */
  function MonthBefore(m: int): (r: int)
    requires 0 <= m < 12
    ensures 0 <= r < 12
    ensures m == 0 ==> r == 11
    ensures m != 0 ==> r == m - 1
  {
    if m == 0 then 11 else m - 1
  }

  /** The month before `m` runs from `new Date(y, m - 1, 1)` to `new Date(y, m, 0)`. */
  lemma PreviousMonth(y: int, m: int)
    requires 0 <= m < 12
    ensures var py, pm := YearOfMonthBefore(FullYear(y), m), MonthBefore(m);
      MakeDate(y, m - 1, 1) == MonthStart(py, pm)
      && MakeDate(y, m, 0) == MonthStart(py, pm) + DaysInMonth(py, pm) - 1
  {
    if m == 0 {
      PreviousDecember(y);
    } else {
      MakeDateInMonth(y, m, 0);
      MakeDateInMonth(y, m - 1, 1);
      MonthStep(FullYear(y), m - 1);
    }
  }

  /** In January, the month before is December of the year before. */
  lemma PreviousDecember(y: int)
    ensures MakeDate(y, -1, 1) == MonthStart(FullYear(y) - 1, 11)
    ensures MakeDate(y, 0, 0) == MonthStart(FullYear(y) - 1, 11) + 30
  {
    var fy := FullYear(y);
    assert (-1) / 12 == -1 && (-1) % 12 == 11;
    assert 0 / 12 == 0 && 0 % 12 == 0;
    YearLength(fy - 1);
  }

  /** Months follow one another without gaps within a year. */
  lemma MonthStep(y: int, m: int)
    requires 0 <= m < 11
    ensures MonthStart(y, m + 1) == MonthStart(y, m) + DaysInMonth(y, m)
  {
    assert DaysBeforeMonth(y, m + 1) == DaysBeforeMonth(y, m) + DaysInMonth(y, m);
  }

  /** Day 0 of the month after `m` is the last day of `m`, across a year end too. */
  lemma EndOfMonth(y: int, m: int)
    requires 0 <= m < 12
    ensures MakeDate(y, m + 1, 0) == MonthStart(FullYear(y), m) + DaysInMonth(FullYear(y), m) - 1
  {
    if m == 11 {
      assert (m + 1) / 12 == 1 && (m + 1) % 12 == 0;
      YearLength(FullYear(y));
    } else {
      assert (m + 1) / 12 == 0 && (m + 1) % 12 == m + 1;
    }
  }

  /* ---------------- weekdays ---------------- */

  /** `Date.prototype.getDay`: 0 for Sunday ... 6 for Saturday. */
  function WeekDay(t: int): (r: int)
    ensures 0 <= r < 7
  {
    (t + 4) % 7
  }

  /** ISO weekday: Monday 1 ... Sunday 7. */
  function IsoDay(t: int): (r: int)
    ensures 1 <= r <= 7
    ensures WeekDay(t) == 0 ==> r == 7
    ensures WeekDay(t) != 0 ==> r == WeekDay(t)
  {
    var day := WeekDay(t);
    if day == 0 then 7 else day
  }

  /** The Monday on or before day `t`. */
  function MondayOf(t: int): int {
    t - (IsoDay(t) - 1)
  }

  /** A date seven days earlier falls on the same weekday. */
  lemma WeekEarlier(t: int)
    ensures IsoDay(t - 7) == IsoDay(t)
  {
    var q := (t + 4) / 7;
    assert t + 4 == 7 * q + WeekDay(t);
    assert t - 3 == 7 * (q - 1) + WeekDay(t);
  }

  lemma MondayOfIsMonday(t: int)
    ensures IsoDay(MondayOf(t)) == 1
    ensures MondayOf(t) <= t < MondayOf(t) + 7
  {
    var q := (t + 4) / 7;
    assert t + 4 == 7 * q + WeekDay(t);
    if WeekDay(t) == 0 {
      assert MondayOf(t) + 4 == 7 * (q - 1) + 1;
    } else {
      assert MondayOf(t) + 4 == 7 * q + 1;
    }
  }

  /* ---------------- values ---------------- */

  /** A reading of the clock: `getFullYear()`, `getMonth()` (0-based) and `getDate()`. */
  datatype Civil = Civil(year: int, month: int, day: int)

  predicate ValidCivil(c: Civil) {
    0 <= c.month < 12 && 1 <= c.day <= DaysInMonth(c.year, c.month)
  }

  /** The day number of a clock reading (a date the clock holds, not one it constructs). */
  function DayNumber(c: Civil): int
    requires ValidCivil(c)
  {
    MonthStart(c.year, c.month) + c.day - 1
  }

  /** `{from, to}`, either bound possibly `null`. */
  datatype DateRange = DateRange(from: Option<int>, to: Option<int>)

  /** The picker's `value`: a date, a range or `null`. */
  datatype CalValue = NoValue | OneDate(day: int) | RangeValue(range: DateRange)

  datatype Mode = Single | RangeMode

  /* ---------------- presets ---------------- */

  /** Monday to Sunday of the week containing today. */
  function CurrentWeek(today: Civil): (r: DateRange)
    requires ValidCivil(today)
    ensures r.from.Some? && r.to.Some?
    ensures IsoDay(r.from.value) == 1 && r.to.value == r.from.value + 6
    ensures r.from.value <= DayNumber(today) <= r.to.value
  {
    var now := DayNumber(today);
    var from := now - (IsoDay(now) - 1);
    MondayOfIsMonday(now);
    DateRange(Some(from), Some(from + 6))
  }

  /** The week before the current one: both bounds seven days earlier. */
  function LastWeek(today: Civil): (r: DateRange)
    requires ValidCivil(today)
    ensures r.from.Some? && r.to.Some?
    ensures IsoDay(r.from.value) == 1 && r.to.value == r.from.value + 6
    ensures r.from == Some(CurrentWeek(today).from.value - 7)
    ensures r.to.value + 1 == CurrentWeek(today).from.value
  {
    var cw := CurrentWeek(today);
    var from := cw.from.value - 7;
    WeekEarlier(cw.from.value);
    DateRange(Some(from), Some(cw.to.value - 7))
  }

  /**
   * The 1st to the last day of today's month, rebuilt with `new Date(year, month, ...)`;
   * in the years 0 to 99 that is the month of 1900 to 1999 instead.
   */
  function CurrentMonth(today: Civil): (r: DateRange)
    requires ValidCivil(today)
    ensures r.from.Some? && r.to.Some?
    ensures r.from.value == MonthStart(FullYear(today.year), today.month)
    ensures r.to.value == r.from.value + DaysInMonth(FullYear(today.year), today.month) - 1
    ensures !(0 <= today.year <= 99) ==> r.from.value <= DayNumber(today) <= r.to.value
  {
    EndOfMonth(today.year, today.month);
    MakeDateInMonth(today.year, today.month, 1);
    MakeDateInMonth(today.year, today.month, today.day);
    DateRange(Some(MakeDate(today.year, today.month, 1)), Some(MakeDate(today.year, today.month + 1, 0)))
  }

  /** The 1st to the last day of the month before today's, across a year end too. */
  function LastMonth(today: Civil): (r: DateRange)
    requires ValidCivil(today)
    ensures r.from.Some? && r.to.Some?
    ensures var py, pm := YearOfMonthBefore(FullYear(today.year), today.month), MonthBefore(today.month);
      r.from.value == MonthStart(py, pm) && r.to.value == r.from.value + DaysInMonth(py, pm) - 1
    ensures r.to.value + 1 == CurrentMonth(today).from.value
  {
    PreviousMonth(today.year, today.month);
    MakeDateInMonth(today.year, today.month, 1);
    DateRange(Some(MakeDate(today.year, today.month - 1, 1)), Some(MakeDate(today.year, today.month, 0)))
  }

  datatype Preset = LastWeekPreset | CurrentWeekPreset | LastMonthPreset | CurrentMonthPreset

  /**
   * What a preset button emits, whatever the mode: a complete, ordered range, which
   * holds today for the "current" presets and ends before today for the "last" ones
   * (the month presets misread the years 0 to 99; the week presets step with `setDate`,
   * which does not).
   */
  function PresetValue(p: Preset, today: Civil): (r: CalValue)
    requires ValidCivil(today)
    ensures r.RangeValue? && r.range.from.Some? && r.range.to.Some?
    ensures r.range.from.value <= r.range.to.value
    ensures p == CurrentWeekPreset ==> r.range.from.value <= DayNumber(today) <= r.range.to.value
    ensures p == LastWeekPreset ==> r.range.to.value < DayNumber(today)
    ensures !(0 <= today.year <= 99) && p == CurrentMonthPreset ==>
      r.range.from.value <= DayNumber(today) <= r.range.to.value
    ensures !(0 <= today.year <= 99) && p == LastMonthPreset ==> r.range.to.value < DayNumber(today)
  {
    match p
    case LastWeekPreset => RangeValue(LastWeek(today))
    case CurrentWeekPreset => RangeValue(CurrentWeek(today))
    case LastMonthPreset => RangeValue(LastMonth(today))
    case CurrentMonthPreset => RangeValue(CurrentMonth(today))
  }

  /** What the clear link emits, whatever the mode. */
  function ClearValue(): (r: CalValue)
    ensures r == NoValue
  {
    NoValue
  }

  /* ---------------- selection ---------------- */

  /** The range the picker works with: the value in range mode, otherwise both bounds unset. */
  function RangeView(mode: Mode, value: CalValue): (r: DateRange)
    ensures mode == Single ==> r == DateRange(None, None)
    ensures mode == RangeMode && value.RangeValue? ==> r == value.range
    ensures !value.RangeValue? ==> r == DateRange(None, None)
  {
    if mode == RangeMode && value.RangeValue? then value.range else DateRange(None, None)
  }

  /** A click on day `d`: what the picker emits. */
  function SelectDay(mode: Mode, value: CalValue, d: int): (r: CalValue)
    ensures mode == Single ==> r == OneDate(d)
    ensures mode == RangeMode ==> r.RangeValue?
    // no anchor yet, or a complete range: start a new range at d
    ensures mode == RangeMode && (RangeView(mode, value).from.None? || RangeView(mode, value).to.Some?)
      ==> r == RangeValue(DateRange(Some(d), None))
    // anchored: complete the range, in order
    ensures mode == RangeMode && RangeView(mode, value).from.Some? && RangeView(mode, value).to.None? ==>
      var a := RangeView(mode, value).from.value;
      r.range.from.Some? && r.range.to.Some?
      && r.range.from.value <= r.range.to.value
      && r.range.from.value == (if d < a then d else a)
      && r.range.to.value == (if d < a then a else d)
  {
    if mode == Single then OneDate(d)
    else
      var rv := RangeView(mode, value);
      if rv.from.None? || (rv.from.Some? && rv.to.Some?) then RangeValue(DateRange(Some(d), None))
      else if d < rv.from.value then RangeValue(DateRange(Some(d), rv.from))
      else RangeValue(DateRange(rv.from, Some(d)))
  }

  /** Day `d` is highlighted as inside the range: both bounds set and `from <= d <= to`. */
  function IsInRange(rv: DateRange, d: int): (r: bool)
    ensures r ==> rv.from.Some? && rv.to.Some?
    ensures rv.from.Some? && rv.to.Some? ==> (r <==> rv.from.value <= d <= rv.to.value)
  {
    if rv.from.None? || rv.to.None? then false
    else rv.from.value <= d && d <= rv.to.value
  }

  /** `isSame`: the bound is set and names the same day (dates compare by day number). */
  function IsSame(a: Option<int>, b: int): (r: bool)
    ensures r <==> a == Some(b)
  {
    a.Some? && a.value == b
  }

  /** The second click of a range: the anchor and the clicked day are both inside it. */
  lemma {:induction false} SecondClickCovers(value: CalValue, d: int)
    requires RangeView(RangeMode, value).from.Some? && RangeView(RangeMode, value).to.None?
    ensures var r := SelectDay(RangeMode, value, d);
      IsInRange(r.range, d) && IsInRange(r.range, RangeView(RangeMode, value).from.value)
      && IsSame(r.range.from, if d < RangeView(RangeMode, value).from.value then d else RangeView(RangeMode, value).from.value)
  {
    var r := SelectDay(RangeMode, value, d);
    assert r.range.from.Some? && r.range.to.Some?;
  }

  /** A first click highlights nothing as a range yet. */
  lemma FirstClickHighlightsNothing(value: CalValue, d: int, e: int)
    requires RangeView(RangeMode, value).from.None? || RangeView(RangeMode, value).to.Some?
    ensures !IsInRange(SelectDay(RangeMode, value, d).range, e)
  {
  }

  /* ---------------- the month grid ---------------- */

  /** Six weeks of days, Monday first, starting on the Monday on or before the 1st. */
  function Grid(year: int, month: int): (g: seq<int>)
    ensures |g| == 42
    ensures forall i :: 0 <= i < 41 ==> g[i + 1] == g[i] + 1
    ensures IsoDay(g[0]) == 1
    ensures g[0] <= MakeDate(year, month, 1) < g[0] + 7
    ensures forall i :: 0 <= i < 42 ==> g[i] == MondayOf(MakeDate(year, month, 1)) + i
    ensures 0 <= month < 12 ==>
      forall d :: 1 <= d <= DaysInMonth(year, month) ==> MakeDate(year, month, d) in g
  {
    var first := MakeDate(year, month, 1);
    var start := IsoDay(first);
    var g := seq(42, i requires 0 <= i < 42 => MakeDate(year, month, i - (start - 1) + 1));
    MondayOfIsMonday(first);
    forall i | 0 <= i < 42
      ensures g[i] == first + i - (start - 1)
    {
      MakeDateOffset(year, month, i - (start - 1) + 1);
    }
    assert g[0] == MondayOf(first);
    assert 0 <= month < 12 ==>
      forall d :: 1 <= d <= DaysInMonth(year, month) ==> MakeDate(year, month, d) in g by {
      if 0 <= month < 12 {
        forall d | 1 <= d <= DaysInMonth(year, month)
          ensures MakeDate(year, month, d) in g
        {
          var i := d - 1 + (start - 1);
          MakeDateOffset(year, month, d);
          assert g[i] == MakeDate(year, month, d);
        }
      }
    }
    g
  }

  /** A year typed as 0 to 99 shows the days of 1900 to 1999. */
  lemma TwoDigitYearGrid(year: int, month: int)
    requires 0 <= year <= 99
    ensures Grid(year, month) == Grid(1900 + year, month)
  {
    assert MakeDate(year, month, 1) == MakeDate(1900 + year, month, 1);
  }

  /* ---------------- the picker's own state ---------------- */

  /** Months counted from year 0: the order in which navigation steps. */
  function MonthIndex(month: int, year: int): int {
    year * 12 + month
  }

  lemma MonthIndexInjective(m1: int, y1: int, m2: int, y2: int)
    requires 0 <= m1 < 12 && 0 <= m2 < 12
    requires MonthIndex(m1, y1) == MonthIndex(m2, y2)
    ensures m1 == m2 && y1 == y2
  {
  }

  class CalendarView {
    var month: int
    var year: int
    /** The month/year chooser is open instead of the grid. */
    var selectingMY: bool
    var tmpMonth: int
    var tmpYear: int

    ghost predicate Valid()
      reads this
    {
      0 <= month < 12 && 0 <= tmpMonth < 12
    }

    /** Opens on today's month. */
    constructor (today: Civil)
      requires ValidCivil(today)
      ensures Valid()
      ensures month == today.month && year == today.year && !selectingMY
      ensures tmpMonth == month && tmpYear == year
    {
      month, year := today.month, today.year;
      selectingMY := false;
      tmpMonth, tmpYear := today.month, today.year;
    }

    /** The days shown. */
    function Days(): seq<int>
      reads this
    {
      Grid(year, month)
    }

    method NextMonth()
      requires Valid()
      modifies this
      ensures Valid()
      ensures MonthIndex(month, year) == MonthIndex(old(month), old(year)) + 1
      ensures selectingMY == old(selectingMY) && tmpMonth == old(tmpMonth) && tmpYear == old(tmpYear)
    {
      var newMonth := month + 1;
      var newYear := year;
      if newMonth > 11 {
        newMonth := 0;
        newYear := year + 1;
      }
      month := newMonth;
      year := newYear;
    }

    method PrevMonth()
      requires Valid()
      modifies this
      ensures Valid()
      ensures MonthIndex(month, year) == MonthIndex(old(month), old(year)) - 1
      ensures selectingMY == old(selectingMY) && tmpMonth == old(tmpMonth) && tmpYear == old(tmpYear)
    {
      var newMonth := month - 1;
      var newYear := year;
      if newMonth < 0 {
        newMonth := 11;
        newYear := year - 1;
      }
      month := newMonth;
      year := newYear;
    }

    /** A click on the month title opens the chooser, preset to the shown month. */
    method OpenChooser()
      requires Valid()
      modifies this
      ensures Valid()
      ensures selectingMY && tmpMonth == month && tmpYear == year
      ensures month == old(month) && year == old(year)
    {
      tmpMonth := month;
      tmpYear := year;
      selectingMY := true;
    }

    /** Picking a month in the chooser's list (which offers 0..11 only). */
    method ChooseMonth(m: int)
      requires Valid() && 0 <= m < 12
      modifies this
      ensures Valid()
      ensures tmpMonth == m
      ensures month == old(month) && year == old(year) && tmpYear == old(tmpYear) && selectingMY == old(selectingMY)
    {
      tmpMonth := m;
    }

    /** Typing a year in the chooser. */
    method ChooseYear(y: int)
      requires Valid()
      modifies this
      ensures Valid()
      ensures tmpYear == y
      ensures month == old(month) && year == old(year) && tmpMonth == old(tmpMonth) && selectingMY == old(selectingMY)
    {
      tmpYear := y;
    }

    method CancelChooser()
      requires Valid()
      modifies this
      ensures Valid()
      ensures !selectingMY
      ensures month == old(month) && year == old(year) && tmpMonth == old(tmpMonth) && tmpYear == old(tmpYear)
    {
      selectingMY := false;
    }

    /** "Go": show the chosen month and year. */
    method ApplyChooser()
      requires Valid()
      modifies this
      ensures Valid()
      ensures !selectingMY && month == old(tmpMonth) && year == old(tmpYear)
      ensures tmpMonth == old(tmpMonth) && tmpYear == old(tmpYear)
    {
      year := tmpYear;
      month := tmpMonth;
      selectingMY := false;
    }
  }

  /** Stepping forward and back again shows the same month. */
  method ForwardThenBack(c: CalendarView)
    requires c.Valid()
    modifies c
    ensures c.Valid()
    ensures c.month == old(c.month) && c.year == old(c.year)
  {
    ghost var m0, y0 := c.month, c.year;
    c.NextMonth();
    c.PrevMonth();
    MonthIndexInjective(c.month, c.year, m0, y0);
  }
}
