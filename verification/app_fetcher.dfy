/** The second-generation feature builder (app/weather_fetcher.py): one request per weekday,
    overnight aggregates over the first 8 hours, a 24-hour total and three per-hour series. */
module AppFetcher {
  import opened Common
  import opened Calendar
  import opened Series
  import opened Features
  import opened WeekRanges

  /** The `hourly` block of a one-day response. */
  datatype AppHourly = AppHourly(
    temperature: seq<Option<real>>,
    snowfall: seq<Option<real>>,
    windSpeed: seq<Option<real>>,
    dewPoint: seq<Option<real>>)

  datatype AppRow = AppRow(
    date: string,
    snowDay: int,
    snowfallOvernight: real,
    snowfall24h: real,
    noSnowfallPenalty: int,
    tempMinOvernight: real,
    windSpeedAvgOvernight: real,
    dewpointAvgOvernight: real,
    temperature: seq<real>,  // temperature0..7
    snowfall: seq<real>,     // snowfall0..7
    windSpeed: seq<real>)    // windspeed0..7

  /** The per-hour fields of a row. */
  datatype AppHours = AppHours(temperature: seq<real>, snowfall: seq<real>, windSpeed: seq<real>)

  /** The three series the per-hour loop reads all have an hour 7. */
  predicate HoursAvailable(h: AppHourly)
  {
    |h.temperature| >= 8 && |h.snowfall| >= 8 && |h.windSpeed| >= 8
  }

  /** The `for h in range(8)` loop: each value, 0 when missing; reading past the end of a
      series is an `IndexError`. */
  method FillHours(h: AppHourly) returns (r: Result<AppHours>)
    ensures r.Err? <==> !HoursAvailable(h)
    ensures r.Err? ==> r.error == IndexError
    ensures r.Ok? ==> r.value == AppHours(ZeroFilled(h.temperature[..8]),
                                          ZeroFilled(h.snowfall[..8]),
                                          ZeroFilled(h.windSpeed[..8]))
  {
    var temperature, snowfall, windSpeed := [], [], [];
    for hour := 0 to 8
      invariant hour <= |h.temperature| && hour <= |h.snowfall| && hour <= |h.windSpeed|
      invariant temperature == ZeroFilled(h.temperature[..hour])
      invariant snowfall == ZeroFilled(h.snowfall[..hour])
      invariant windSpeed == ZeroFilled(h.windSpeed[..hour])
    {
      if hour >= |h.temperature| || hour >= |h.snowfall| || hour >= |h.windSpeed| {
        return Err(IndexError);
      }
      temperature := temperature + [OrZero(h.temperature[hour])];
      snowfall := snowfall + [OrZero(h.snowfall[hour])];
      windSpeed := windSpeed + [OrZero(h.windSpeed[hour])];
      assert h.temperature[..hour + 1] == h.temperature[..hour] + [h.temperature[hour]];
      assert h.snowfall[..hour + 1] == h.snowfall[..hour] + [h.snowfall[hour]];
      assert h.windSpeed[..hour + 1] == h.windSpeed[..hour] + [h.windSpeed[hour]];
    }
    r := Ok(AppHours(temperature, snowfall, windSpeed));
  }

  /** The row of one weekday. The dictionary is filled in order, so an empty overnight
      temperature list (`min` of nothing) fails before the per-hour loop can. */
  function AppRowOf(day: Day, h: AppHourly, snowDays: seq<string>): Result<AppRow>
  {
    var overnight := Sum(ZeroFilled(Take(h.snowfall, 8)));
    var total := Sum(ZeroFilled(Take(h.snowfall, 24)));
    var temps := Present(Take(h.temperature, 8));
    if |temps| == 0 then Err(ValueError)
    else if !HoursAvailable(h) then Err(IndexError)
    else Ok(AppRow(
      date := DateString(day),
      snowDay := SnowDayLabel(DateString(day), snowDays),
      snowfallOvernight := overnight,
      snowfall24h := total,
      noSnowfallPenalty := NoSnowfallPenalty(total, overnight),
      tempMinOvernight := Min(temps),
      windSpeedAvgOvernight := SafeMean(Take(h.windSpeed, 8)),
      dewpointAvgOvernight := SafeMean(Take(h.dewPoint, 8)),
      temperature := ZeroFilled(h.temperature[..8]),
      snowfall := ZeroFilled(h.snowfall[..8]),
      windSpeed := ZeroFilled(h.windSpeed[..8])))
  }

  /** Builds the row of one weekday: the aggregates, then the per-hour loop. */
  method BuildRow(day: Day, h: AppHourly, snowDays: seq<string>) returns (r: Result<AppRow>)
    ensures r == AppRowOf(day, h, snowDays)
  {
    var dateStr := DateString(day);
    var overnight := Sum(ZeroFilled(Take(h.snowfall, 8)));
    var total := Sum(ZeroFilled(Take(h.snowfall, 24)));
    var temps := Present(Take(h.temperature, 8));
    if |temps| == 0 {
      return Err(ValueError);
    }
    var hours := FillHours(h);
    if hours.Err? {
      return Err(hours.error);
    }
    r := Ok(AppRow(
      date := dateStr,
      snowDay := SnowDayLabel(dateStr, snowDays),
      snowfallOvernight := overnight,
      snowfall24h := total,
      noSnowfallPenalty := NoSnowfallPenalty(total, overnight),
      tempMinOvernight := Min(temps),
      windSpeedAvgOvernight := SafeMean(Take(h.windSpeed, 8)),
      dewpointAvgOvernight := SafeMean(Take(h.dewPoint, 8)),
      temperature := hours.value.temperature,
      snowfall := hours.value.snowfall,
      windSpeed := hours.value.windSpeed));
  }

  /** A row fails exactly when the first eight temperatures are all missing or a per-hour
      series is short, and only the short series gives `IndexError`. */
  lemma AppRowOfError(day: Day, h: AppHourly, snowDays: seq<string>)
    ensures AppRowOf(day, h, snowDays).Err? <==>
      (forall i :: 0 <= i < 8 && i < |h.temperature| ==> h.temperature[i].None?) || !HoursAvailable(h)
    ensures AppRowOf(day, h, snowDays).Err? && AppRowOf(day, h, snowDays).error == IndexError ==>
      !HoursAvailable(h)
  {
    var t8 := Take(h.temperature, 8);
    PresentNonEmpty(t8);
    assert (exists i :: 0 <= i < |t8| && t8[i].Some?) <==>
           (exists i :: 0 <= i < 8 && i < |h.temperature| && h.temperature[i].Some?) by {
      if exists i :: 0 <= i < 8 && i < |h.temperature| && h.temperature[i].Some? {
        var i :| 0 <= i < 8 && i < |h.temperature| && h.temperature[i].Some?;
        assert t8[i] == h.temperature[i];
      }
    }
  }

  /** A built row carries its date, the overnight and 24-hour totals with None as 0, and the
      penalty's cases. */
  lemma AppRowOfTotals(day: Day, h: AppHourly, snowDays: seq<string>)
    requires AppRowOf(day, h, snowDays).Ok?
    ensures AppRowOf(day, h, snowDays).value.date == DateString(day)
    ensures AppRowOf(day, h, snowDays).value.snowfallOvernight == SafeSum(Take(h.snowfall, 8))
    ensures AppRowOf(day, h, snowDays).value.snowfall24h == SafeSum(Take(h.snowfall, 24))
    ensures AppRowOf(day, h, snowDays).value.noSnowfallPenalty == 2 <==>
      AppRowOf(day, h, snowDays).value.snowfall24h == 0.0
    ensures AppRowOf(day, h, snowDays).value.noSnowfallPenalty == 1 <==>
      AppRowOf(day, h, snowDays).value.snowfall24h != 0.0 && AppRowOf(day, h, snowDays).value.snowfallOvernight < 1.0
  {
    SafeSumIsZeroFilledSum(Take(h.snowfall, 8));
    SafeSumIsZeroFilledSum(Take(h.snowfall, 24));
  }

  /** A built row's overnight minimum temperature is one of the first eight temperatures and
      no present one of them is below it. */
  lemma AppRowOfMinimum(day: Day, h: AppHourly, snowDays: seq<string>)
    requires AppRowOf(day, h, snowDays).Ok?
    ensures Some(AppRowOf(day, h, snowDays).value.tempMinOvernight) in Take(h.temperature, 8)
    ensures forall i :: 0 <= i < 8 && h.temperature[i].Some? ==>
      AppRowOf(day, h, snowDays).value.tempMinOvernight <= h.temperature[i].value
  {
    var t8 := Take(h.temperature, 8);
    SafeMinSpec(t8);
    forall i | 0 <= i < 8 && h.temperature[i].Some?
      ensures AppRowOf(day, h, snowDays).value.tempMinOvernight <= h.temperature[i].value
    {
      assert t8[i] == h.temperature[i];
    }
  }

  /** What a row says about its day: when it is built, which error stops it otherwise, and
      how each feature follows from the hourly series. */
  lemma AppRowOfSpec(day: Day, h: AppHourly, snowDays: seq<string>)
    ensures var r := AppRowOf(day, h, snowDays);
      && (r.Err? <==> (forall i :: 0 <= i < 8 && i < |h.temperature| ==> h.temperature[i].None?)
                      || !HoursAvailable(h))
      && (r.Err? && r.error == IndexError ==> !HoursAvailable(h))
    ensures AppRowOf(day, h, snowDays).Ok? ==>
      var row := AppRowOf(day, h, snowDays).value;
      && row.date == DateString(day)
      && row.snowfallOvernight == SafeSum(Take(h.snowfall, 8))
      && row.snowfall24h == SafeSum(Take(h.snowfall, 24))
      && (row.noSnowfallPenalty == 2 <==> row.snowfall24h == 0.0)
      && (row.noSnowfallPenalty == 1 <==> row.snowfall24h != 0.0 && row.snowfallOvernight < 1.0)
      && Some(row.tempMinOvernight) in Take(h.temperature, 8)
      && (forall i :: 0 <= i < 8 && h.temperature[i].Some? ==> row.tempMinOvernight <= h.temperature[i].value)
      && |row.temperature| == 8 && |row.snowfall| == 8 && |row.windSpeed| == 8
      && (forall i :: 0 <= i < 8 ==>
            && row.temperature[i] == OrZero(h.temperature[i])
            && row.snowfall[i] == OrZero(h.snowfall[i])
            && row.windSpeed[i] == OrZero(h.windSpeed[i]))
  {
    AppRowOfError(day, h, snowDays);
    if AppRowOf(day, h, snowDays).Ok? {
      AppRowOfTotals(day, h, snowDays);
      AppRowOfMinimum(day, h, snowDays);
    }
  }

  /** The rows the loop produces from day `current` to `end`. `responses` holds the `hourly`
      block the provider answers for each request `(date, useForecast)`; a request without an
      entry is a response without an `hourly` block. */
  function AppRows(responses: map<(string, bool), AppHourly>, snowDays: seq<string>,
                   useForecast: bool, current: Day, end: Day): Result<seq<AppRow>>
    decreases if current <= end then end - current + 1 else 0
  {
    if current > end then Ok([])
    else match DayStep(responses, snowDays, useForecast, current)
      case Err(e) => Err(e)
      case Ok(None) => AppRows(responses, snowDays, useForecast, current + 1, end)
      case Ok(Some(row)) => Prepend(row, AppRows(responses, snowDays, useForecast, current + 1, end))
  }

  /** What the loop does with day `d`: nothing on a weekend, otherwise the row built from
      the day's response, or the error that stops the run. */
  function DayStep(responses: map<(string, bool), AppHourly>, snowDays: seq<string>, useForecast: bool, d: Day)
    : Result<Option<AppRow>>
  {
    if !IsWeekday(d) then Ok(None)
    else match Lookup(responses, (DateString(d), useForecast))
      case None => Err(ValueError)
      case Some(h) =>
        match AppRowOf(d, h, snowDays)
        case Err(e) => Err(e)
        case Ok(row) => Ok(Some(row))
  }

  /** The body of the loop: the weekday test, the request and the row. */
  method ProcessDay(responses: map<(string, bool), AppHourly>, snowDays: seq<string>, useForecast: bool, current: Day)
    returns (step: Result<Option<AppRow>>)
    ensures step == DayStep(responses, snowDays, useForecast, current)
  {
    if !IsWeekday(current) {
      return Ok(None);
    }
    var dateStr := DateString(current);
    var data := Lookup(responses, (dateStr, useForecast));
    if data.None? {
      return Err(ValueError);
    }
    var row := BuildRow(current, data.value, snowDays);
    if row.Err? {
      return Err(row.error);
    }
    step := Ok(Some(row.value));
  }

  /** `get_data_within_timerange` of app/weather_fetcher.py. */
  method GetDataWithinTimerange(responses: map<(string, bool), AppHourly>, snowDays: seq<string>,
                                start: Day, end: Day, useForecast: bool)
    returns (r: Result<seq<AppRow>>)
    ensures r == AppRows(responses, snowDays, useForecast, start, end)
  {
    var rows: seq<AppRow> := [];
    var current := start;
    ghost var target := AppRows(responses, snowDays, useForecast, start, end);
    ChainNil(target);
    while current <= end
      invariant Chain(rows, AppRows(responses, snowDays, useForecast, current, end)) == target
      decreases end - current
    {
      var step := ProcessDay(responses, snowDays, useForecast, current);
      match step {
        case Err(e) =>
          return Err(e);
        case Ok(None) =>
        case Ok(Some(row)) =>
          ChainPrepend(rows, row, AppRows(responses, snowDays, useForecast, current + 1, end));
          rows := rows + [row];
      }
      current := current + 1;
    }
    assert rows + [] == rows;
    r := Ok(rows);
  }

  /** `row` is the row built from the response fetched for weekday `d`. */
  predicate RowOfDay(row: AppRow, responses: map<(string, bool), AppHourly>, snowDays: seq<string>,
                     useForecast: bool, d: Day)
  {
    && Lookup(responses, (DateString(d), useForecast)).Some?
    && AppRowOf(d, Lookup(responses, (DateString(d), useForecast)).value, snowDays) == Ok(row)
    && row.date == DateString(d)
  }

  /** A day that emits a row emits the row built from its response, dated by it. */
  lemma DayStepRow(responses: map<(string, bool), AppHourly>, snowDays: seq<string>, useForecast: bool, d: Day)
    requires DayStep(responses, snowDays, useForecast, d).Ok?
    requires DayStep(responses, snowDays, useForecast, d).value.Some?
    ensures RowOfDay(DayStep(responses, snowDays, useForecast, d).value.value, responses, snowDays, useForecast, d)
  {
  }

  /** Rows matched to the days of a working week are matched to Monday to Friday. */
  lemma RowsOfWeek(rows: seq<AppRow>, days: seq<Day>, responses: map<(string, bool), AppHourly>,
                   snowDays: seq<string>, useForecast: bool, m: Day)
    requires |rows| == 5 && days == [m, m + 1, m + 2, m + 3, m + 4]
    requires forall k :: 0 <= k < 5 ==> RowOfDay(rows[k], responses, snowDays, useForecast, days[k])
    ensures forall k :: 0 <= k < 5 ==> RowOfDay(rows[k], responses, snowDays, useForecast, m + k)
  {
    forall k | 0 <= k < 5 ensures RowOfDay(rows[k], responses, snowDays, useForecast, m + k) {
      assert days[k] == m + k;
    }
  }

  /** A successful run has exactly one row per weekday of the range, in ascending date
      order, each built from the response fetched for that weekday's date. */
  lemma {:induction false} AppRowsSpec(responses: map<(string, bool), AppHourly>, snowDays: seq<string>,
                                       useForecast: bool, current: Day, end: Day)
    requires AppRows(responses, snowDays, useForecast, current, end).Ok?
    ensures |AppRows(responses, snowDays, useForecast, current, end).value| == |WeekdaysIn(current, end)|
    ensures forall k :: 0 <= k < |WeekdaysIn(current, end)| ==>
      RowOfDay(AppRows(responses, snowDays, useForecast, current, end).value[k], responses, snowDays, useForecast,
               WeekdaysIn(current, end)[k])
    decreases if current <= end then end - current + 1 else 0
  {
    if current <= end {
      AppRowsSpec(responses, snowDays, useForecast, current + 1, end);
      var rows := AppRows(responses, snowDays, useForecast, current, end).value;
      var rest := AppRows(responses, snowDays, useForecast, current + 1, end).value;
      var days := WeekdaysIn(current, end);
      var later := WeekdaysIn(current + 1, end);
      if IsWeekday(current) {
        var row := DayStep(responses, snowDays, useForecast, current).value.value;
        DayStepRow(responses, snowDays, useForecast, current);
        assert rows == [row] + rest;
        assert days == [current] + later;
        forall k | 0 <= k < |days|
          ensures RowOfDay(rows[k], responses, snowDays, useForecast, days[k])
        {
          if k > 0 {
            assert rows[k] == rest[k - 1] && days[k] == later[k - 1];
          }
        }
      } else {
        assert rows == rest && days == later;
      }
    }
  }

  /** Weekday `d` stops the loop: its response has no hourly block or its row cannot be
      built. */
  predicate DayFails(responses: map<(string, bool), AppHourly>, snowDays: seq<string>,
                     useForecast: bool, d: Day)
  {
    IsWeekday(d) &&
    (Lookup(responses, (DateString(d), useForecast)).None?
     || AppRowOf(d, Lookup(responses, (DateString(d), useForecast)).value, snowDays).Err?)
  }

  /** A run fails exactly when some weekday of the range has no hourly block or a row that
      cannot be built. */
  lemma {:induction false} AppRowsError(responses: map<(string, bool), AppHourly>, snowDays: seq<string>,
                                        useForecast: bool, current: Day, end: Day)
    ensures AppRows(responses, snowDays, useForecast, current, end).Err? <==>
      exists d :: current <= d <= end && DayFails(responses, snowDays, useForecast, d)
    decreases if current <= end then end - current + 1 else 0
  {
    if current <= end {
      AppRowsError(responses, snowDays, useForecast, current + 1, end);
      var rest := AppRows(responses, snowDays, useForecast, current + 1, end);
      if DayFails(responses, snowDays, useForecast, current) {
        assert AppRows(responses, snowDays, useForecast, current, end).Err?;
      } else {
        forall d | current <= d <= end && DayFails(responses, snowDays, useForecast, d)
          ensures current + 1 <= d
        {
        }
        if IsWeekday(current) {
          var row := DayStep(responses, snowDays, useForecast, current).value.value;
          assert AppRows(responses, snowDays, useForecast, current, end) == Prepend(row, rest);
        }
      }
    }
  }

  /** A working week yields, when it yields anything, five rows: Monday to Friday in order. */
  lemma WorkWeekRows(responses: map<(string, bool), AppHourly>, snowDays: seq<string>,
                     useForecast: bool, rg: Range, monday: Day)
    requires IsWorkWeek(rg) && rg.first == monday
    requires AppRows(responses, snowDays, useForecast, rg.first, rg.last).Ok?
    ensures |AppRows(responses, snowDays, useForecast, rg.first, rg.last).value| == 5
    ensures forall k :: 0 <= k < 5 ==>
      RowOfDay(AppRows(responses, snowDays, useForecast, rg.first, rg.last).value[k], responses, snowDays,
               useForecast, monday + k)
  {
    AppRowsSpec(responses, snowDays, useForecast, rg.first, rg.last);
    WorkWeekDays(rg);
    var rows := AppRows(responses, snowDays, useForecast, rg.first, rg.last).value;
    var days := WeekdaysIn(rg.first, rg.last);
    RowsOfWeek(rows, days, responses, snowDays, useForecast, monday);
  }

  /** A one-day range yields no row on a weekend and, when it yields any, one row on a
      weekday. */
  lemma SingleDayRows(responses: map<(string, bool), AppHourly>, snowDays: seq<string>,
                      useForecast: bool, d: Day)
    ensures !IsWeekday(d) ==> AppRows(responses, snowDays, useForecast, d, d) == Ok([])
    ensures IsWeekday(d) && AppRows(responses, snowDays, useForecast, d, d).Ok? ==>
      var rows := AppRows(responses, snowDays, useForecast, d, d).value;
      |rows| == 1 && RowOfDay(rows[0], responses, snowDays, useForecast, d)
  {
    if IsWeekday(d) && AppRows(responses, snowDays, useForecast, d, d).Ok? {
      AppRowsSpec(responses, snowDays, useForecast, d, d);
      assert WeekdaysIn(d, d) == [d] + WeekdaysIn(d + 1, d);
    }
  }

  /** `get_last_weeks_data`: last week's Monday to Friday. */
  method GetLastWeeksData(responses: map<(string, bool), AppHourly>, snowDays: seq<string>,
                          today: Day, useForecast: bool)
    returns (r: Result<seq<AppRow>>)
    ensures r == AppRows(responses, snowDays, useForecast, LastWeek(today).first, LastWeek(today).last)
    ensures r.Ok? ==> |r.value| == 5 && forall k :: 0 <= k < 5 ==>
      RowOfDay(r.value[k], responses, snowDays, useForecast, ThisWeek(today).first - 7 + k)
  {
    var rg := LastWeek(today);
    r := GetDataWithinTimerange(responses, snowDays, rg.first, rg.last, useForecast);
    LastWeekIsWorkWeek(today);
    if r.Ok? {
      WorkWeekRows(responses, snowDays, useForecast, rg, ThisWeek(today).first - 7);
    }
  }

  /** `get_this_weeks_data`: this week's Monday to Friday from the forecast; on a weekday,
      today's row is among them. */
  method GetThisWeeksData(responses: map<(string, bool), AppHourly>, snowDays: seq<string>, today: Day)
    returns (r: Result<seq<AppRow>>)
    ensures r == AppRows(responses, snowDays, true, ThisWeek(today).first, ThisWeek(today).last)
    ensures r.Ok? ==> |r.value| == 5 && forall k :: 0 <= k < 5 ==>
      RowOfDay(r.value[k], responses, snowDays, true, ThisWeek(today).first + k)
    ensures r.Ok? && IsWeekday(today) ==>
      RowOfDay(r.value[today - ThisWeek(today).first], responses, snowDays, true, today)
  {
    var rg := ThisWeek(today);
    r := GetDataWithinTimerange(responses, snowDays, rg.first, rg.last, true);
    ThisWeekIsWorkWeek(today);
    if r.Ok? {
      WorkWeekRows(responses, snowDays, true, rg, ThisWeek(today).first);
    }
  }

  /** `get_next_weeks_data`: next week's Monday to Friday from the forecast, all after today. */
  method GetNextWeeksData(responses: map<(string, bool), AppHourly>, snowDays: seq<string>, today: Day)
    returns (r: Result<seq<AppRow>>)
    ensures r == AppRows(responses, snowDays, true, NextWeek(today).first, NextWeek(today).last)
    ensures r.Ok? ==> |r.value| == 5 && forall k :: 0 <= k < 5 ==>
      RowOfDay(r.value[k], responses, snowDays, true, ThisWeek(today).first + 7 + k)
    ensures r.Ok? ==> today < ThisWeek(today).first + 7
  {
    var rg := NextWeek(today);
    r := GetDataWithinTimerange(responses, snowDays, rg.first, rg.last, true);
    NextWeekIsWorkWeek(today);
    if r.Ok? {
      WorkWeekRows(responses, snowDays, true, rg, ThisWeek(today).first + 7);
    }
  }

  /** `get_todays_data`: today's row from the forecast; nothing at all on a weekend. */
  method GetTodaysData(responses: map<(string, bool), AppHourly>, snowDays: seq<string>, today: Day)
    returns (r: Result<seq<AppRow>>)
    ensures r == AppRows(responses, snowDays, true, Today(today).first, Today(today).last)
    ensures !IsWeekday(today) ==> r == Ok([])
    ensures IsWeekday(today) && r.Ok? ==> |r.value| == 1 && RowOfDay(r.value[0], responses, snowDays, true, today)
  {
    r := GetDataWithinTimerange(responses, snowDays, today, today, true);
    SingleDayRows(responses, snowDays, true, today);
  }

  /** `get_tomorrows_data`: tomorrow's row from the forecast; nothing at all when tomorrow
      falls on a weekend. */
  method GetTomorrowsData(responses: map<(string, bool), AppHourly>, snowDays: seq<string>, today: Day)
    returns (r: Result<seq<AppRow>>)
    ensures r == AppRows(responses, snowDays, true, Tomorrow(today).first, Tomorrow(today).last)
    ensures !IsWeekday(today + 1) ==> r == Ok([])
    ensures IsWeekday(today + 1) && r.Ok? ==>
      |r.value| == 1 && RowOfDay(r.value[0], responses, snowDays, true, today + 1)
  {
    r := GetDataWithinTimerange(responses, snowDays, today + 1, today + 1, true);
    SingleDayRows(responses, snowDays, true, today + 1);
  }
}
