/** Calendar days, weekdays and ISO date text, as Python's `datetime`/`date` use them. */
module Calendar {
  import opened Text

  /** A calendar date, counted in days from 1970-01-01. */
  type Day = int

  /** `date.weekday()`: Monday is 0 and Sunday is 6; 1970-01-01 was a Thursday (3). */
  function Weekday(d: Day): (w: int)
    ensures 0 <= w < 7
  {
    (d + 3) % 7
  }

  /** `is_weekday`: Monday to Friday. */
  predicate IsWeekday(d: Day)
  {
    Weekday(d) < 5
  }

  lemma WeekdayNext(d: Day)
    ensures Weekday(d + 1) == if Weekday(d) == 6 then 0 else Weekday(d) + 1
  {
  }

  lemma WeekdayShift(d: Day, k: int)
    ensures Weekday(d + 7 * k) == Weekday(d)
  {
  }

  /** The weekdays of `[start, end]` in ascending order: the days a `while current <= end`
      loop that skips weekends visits with work to do. */
  function WeekdaysIn(start: Day, end: Day): seq<Day>
    decreases if start <= end then end - start + 1 else 0
  {
    if start > end then []
    else (if IsWeekday(start) then [start] else []) + WeekdaysIn(start + 1, end)
  }

  /** `WeekdaysIn` holds exactly the weekdays of the range, each once, in ascending order. */
  lemma {:induction false} WeekdaysInSpec(start: Day, end: Day)
    ensures var ds := WeekdaysIn(start, end);
      && (forall k :: 0 <= k < |ds| ==> start <= ds[k] <= end && IsWeekday(ds[k]))
      && (forall k, l :: 0 <= k < l < |ds| ==> ds[k] < ds[l])
      && (forall d :: start <= d <= end && IsWeekday(d) ==> d in ds)
    decreases if start <= end then end - start + 1 else 0
  {
    if start <= end {
      WeekdaysInSpec(start + 1, end);
      var rest := WeekdaysIn(start + 1, end);
      var ds := WeekdaysIn(start, end);
      assert ds == (if IsWeekday(start) then [start] else []) + rest;
      forall d | start <= d <= end && IsWeekday(d) ensures d in ds {
        if d > start {
          assert d in rest;
        }
      }
    }
  }

  /** The first `n` weekdays on or after `start`. */
  function FirstWeekdays(start: Day, n: nat): (ds: seq<Day>)
    ensures |ds| == n
    decreases n, if IsWeekday(start) then 0 else 7 - Weekday(start)
  {
    if n == 0 then []
    else if IsWeekday(start) then [start] + FirstWeekdays(start + 1, n - 1)
    else WeekdayNext(start); FirstWeekdays(start + 1, n)
  }

  /** `FirstWeekdays(start, n)` is `n` weekdays with none skipped: it is every weekday from
      `start` up to its last element. */
  lemma {:induction false} FirstWeekdaysSpec(start: Day, n: nat)
    ensures var ds := FirstWeekdays(start, n);
      && |ds| == n
      && (n > 0 ==> ds == WeekdaysIn(start, ds[n - 1]))
      && (n > 0 ==> ds == WeekdaysIn(ds[0], ds[n - 1]))
    decreases n, if IsWeekday(start) then 0 else 7 - Weekday(start)
  {
    var ds := FirstWeekdays(start, n);
    if n > 0 {
      if IsWeekday(start) {
        FirstWeekdaysSpec(start + 1, n - 1);
        if n > 1 {
          var rest := FirstWeekdays(start + 1, n - 1);
          WeekdaysInSpec(start + 1, rest[n - 2]);
          assert ds[n - 1] == rest[n - 2];
        } else {
          assert WeekdaysIn(start + 1, start) == [];
        }
      } else {
        FirstWeekdaysSpec(start + 1, n);
        var rest := FirstWeekdays(start + 1, n);
        WeekdaysInSpec(start + 1, rest[n - 1]);
        assert rest[0] in rest;
      }
    }
  }

  /** The Gregorian leap-year rule. */
  predicate IsLeapYear(y: int)
  {
    y % 4 == 0 && (y % 100 != 0 || y % 400 == 0)
  }

  function DaysInYear(y: int): int
  {
    if IsLeapYear(y) then 366 else 365
  }

  function DaysInMonth(y: int, m: int): int
  {
    if m == 2 then (if IsLeapYear(y) then 29 else 28)
    else if m == 4 || m == 6 || m == 9 || m == 11 then 30
    else 31
  }

  /** The (year, month, day) of the date `offset` days after January 1 of `year`. */
  function CivilFrom(year: int, offset: int): (int, int, int)
    decreases if offset < 0 then 1 else 0, if offset < 0 then -offset else offset
  {
    if offset < 0 then CivilFrom(year - 1, offset + DaysInYear(year - 1))
    else if offset >= DaysInYear(year) then CivilFrom(year + 1, offset - DaysInYear(year))
    else MonthDay(year, 1, offset)
  }

  /** The (year, month, day) of the date `offset` days after the first of `month`. */
  function MonthDay(year: int, month: int, offset: nat): (int, int, int)
    requires 1 <= month <= 12
    decreases 12 - month
  {
    if month == 12 || offset < DaysInMonth(year, month) then (year, month, offset + 1)
    else MonthDay(year, month + 1, offset - DaysInMonth(year, month))
  }

  /** The proleptic Gregorian (year, month, day) of `d`. */
  function Civil(d: Day): (int, int, int)
  {
    CivilFrom(1970, d)
  }

  /** The leap years among years 1 to `y`, by the Gregorian rule. */
  function LeapsThrough(y: int): int
  {
    y / 4 - y / 100 + y / 400
  }

  /** The number of days from 1970-01-01 to January 1 of year `y`. */
  function DaysBefore(y: int): int
  {
    365 * (y - 1970) + LeapsThrough(y - 1) - LeapsThrough(1969)
  }

  /** Consecutive New Year's days are a year's length apart. */
  lemma DaysBeforeNext(y: int)
    ensures DaysBefore(y + 1) == DaysBefore(y) + DaysInYear(y)
  {
    MultiplesStep(y, 4);
    MultiplesStep(y, 100);
    MultiplesStep(y, 400);
  }

  /** Going from `y - 1` to `y` adds a multiple of `q` exactly when `y` is one. */
  lemma MultiplesStep(y: int, q: int)
    requires q == 4 || q == 100 || q == 400
    ensures y / q - (y - 1) / q == if y % q == 0 then 1 else 0
  {
    if q == 4 {
      assert y / 4 - (y - 1) / 4 == if y % 4 == 0 then 1 else 0;
    } else if q == 100 {
      assert y / 100 - (y - 1) / 100 == if y % 100 == 0 then 1 else 0;
    } else {
      assert y / 400 - (y - 1) / 400 == if y % 400 == 0 then 1 else 0;
    }
  }

  /** A date on or after January 1 of year `y` (from 1970 on) is `d - DaysBefore(y)` days
      into that year or a later one. */
  lemma {:induction false} CivilFromYear(d: Day, y: int)
    requires y >= 1970 && d >= DaysBefore(y)
    ensures Civil(d) == CivilFrom(y, d - DaysBefore(y))
    decreases y - 1970
  {
    if y > 1970 {
      DaysBeforeNext(y - 1);
      CivilFromYear(d, y - 1);
    }
  }

  function Pad(n: int, width: nat): string
  {
    if n < 0 then "-" + PadNat(-n, width) else PadNat(n, width)
  }

  /** `strftime("%Y-%m-%d")` and `isoformat()` of a date. */
  function DateString(d: Day): string
  {
    var (y, m, dd) := Civil(d);
    Pad(y, 4) + "-" + Pad(m, 2) + "-" + Pad(dd, 2)
  }

  /** `strftime("%Y%m%d")` of a date. */
  function CompactDateString(d: Day): string
  {
    var (y, m, dd) := Civil(d);
    Pad(y, 4) + Pad(m, 2) + Pad(dd, 2)
  }
}
