/** The first-generation feature builder (weather_fetcher.py): one request per weekday,
    a seven-hour overnight window read with plain `sum`/`min`, a binary penalty and three
    per-hour series. */
module LegacyFetcher {
  import opened Common
  import opened Calendar
  import opened Series
  import opened Features
  import opened WeekRanges

  /** The `hourly` block of a one-day response. */
  datatype LegacyHourly = LegacyHourly(
    temperature: seq<Option<real>>,
    snowfall: seq<Option<real>>,
    windSpeed: seq<Option<real>>)

  datatype LegacyRow = LegacyRow(
    date: string,
    snowDay: int,
    snowfallOvernight: real,
    snowfall24h: real,
    noSnowfallPenalty: int,
    tempMinOvernight: Option<real>,
    windSpeedAvgOvernight: real,
    temperature: seq<real>,  // temperature0..7
    snowfall: seq<real>,     // snowfall0..7
    windSpeed: seq<real>)    // windspeed0..7

  datatype LegacyHours = LegacyHours(temperature: seq<real>, snowfall: seq<real>, windSpeed: seq<real>)

  predicate HoursAvailable(h: LegacyHourly)
  {
    |h.temperature| >= 8 && |h.snowfall| >= 8 && |h.windSpeed| >= 8
  }

  /** The binary penalty: 1 when under half a unit of snow fell in the seven-hour window. */
  function BinaryPenalty(overnight: real): (p: int)
    ensures p == 1 <==> overnight < 0.5
    ensures p == 0 <==> overnight >= 0.5
  {
    if overnight < 0.5 then 1 else 0
  }

  /** The `for h in range(8)` loop: `value or 0` for each hour; reading past the end of a
      series is an `IndexError`. */
  method FillHours(h: LegacyHourly) returns (r: Result<LegacyHours>)
    ensures r.Err? <==> !HoursAvailable(h)
    ensures r.Err? ==> r.error == IndexError
    ensures r.Ok? ==> r.value == LegacyHours(ZeroFilled(h.temperature[..8]),
                                             ZeroFilled(h.snowfall[..8]),
                                             ZeroFilled(h.windSpeed[..8]))
  {
    var temperature, snowfall, windSpeed := [], [], [];
    for hour := 0 to 8
      invariant hour <= |h.temperature| && hour <= |h.snowfall| && hour <= |h.windSpeed|
      invariant temperature == ZeroFilled(h.temperature[..hour])
      invariant snowfall == ZeroFilled(h.snowfall[..hour])
      invariant windSpeed == ZeroFilled(h.windSpeed[..hour])
    {
      if hour >= |h.temperature| || hour >= |h.snowfall| || hour >= |h.windSpeed| {
        return Err(IndexError);
      }
      temperature := temperature + [OrZero(h.temperature[hour])];
      snowfall := snowfall + [OrZero(h.snowfall[hour])];
      windSpeed := windSpeed + [OrZero(h.windSpeed[hour])];
      assert h.temperature[..hour + 1] == h.temperature[..hour] + [h.temperature[hour]];
      assert h.snowfall[..hour + 1] == h.snowfall[..hour] + [h.snowfall[hour]];
      assert h.windSpeed[..hour + 1] == h.windSpeed[..hour] + [h.windSpeed[hour]];
    }
    r := Ok(LegacyHours(temperature, snowfall, windSpeed));
  }

  /** The row of one weekday, its entries evaluated in dictionary order: the plain `sum` of
      the seven-hour window fails on a missing value, then the plain `min` of the seven
      temperatures, then the per-hour loop. */
  function LegacyRowOf(day: Day, h: LegacyHourly, snowDays: seq<string>): Result<LegacyRow>
  {
    match PlainSum(Take(h.snowfall, 7))
    case Err(e) => Err(e)
    case Ok(overnight) =>
      match PlainMin(Take(h.temperature, 7))
      case Err(e) => Err(e)
      case Ok(tempMin) =>
        if !HoursAvailable(h) then Err(IndexError)
        else Ok(LegacyRow(
          date := DateString(day),
          snowDay := SnowDayLabel(DateString(day), snowDays),
          snowfallOvernight := overnight,
          snowfall24h := Sum(ZeroFilled(Take(h.snowfall, 24))),
          noSnowfallPenalty := BinaryPenalty(overnight),
          tempMinOvernight := tempMin,
          windSpeedAvgOvernight := SafeMean(Take(h.windSpeed, 8)),
          temperature := ZeroFilled(h.temperature[..8]),
          snowfall := ZeroFilled(h.snowfall[..8]),
          windSpeed := ZeroFilled(h.windSpeed[..8])))
  }

  /** Builds the row of one weekday: the aggregates, then the per-hour loop. */
  method BuildRow(day: Day, h: LegacyHourly, snowDays: seq<string>) returns (r: Result<LegacyRow>)
    ensures r == LegacyRowOf(day, h, snowDays)
  {
    var dateStr := DateString(day);
    var overnight := PlainSum(Take(h.snowfall, 7));
    if overnight.Err? {
      return Err(overnight.error);
    }
    var tempMin := PlainMin(Take(h.temperature, 7));
    if tempMin.Err? {
      return Err(tempMin.error);
    }
    var hours := FillHours(h);
    if hours.Err? {
      return Err(hours.error);
    }
    r := Ok(LegacyRow(
      date := dateStr,
      snowDay := SnowDayLabel(dateStr, snowDays),
      snowfallOvernight := overnight.value,
      snowfall24h := Sum(ZeroFilled(Take(h.snowfall, 24))),
      noSnowfallPenalty := BinaryPenalty(overnight.value),
      tempMinOvernight := tempMin.value,
      windSpeedAvgOvernight := SafeMean(Take(h.windSpeed, 8)),
      temperature := hours.value.temperature,
      snowfall := hours.value.snowfall,
      windSpeed := hours.value.windSpeed));
  }

  /** The overnight window of this builder is hours 0..6: it fails on a missing snowfall
      value there, its total is that of hours 0..6 only, and the penalty is binary. */
  lemma LegacyRowOfSpec(day: Day, h: LegacyHourly, snowDays: seq<string>)
    ensures (exists i :: 0 <= i < 7 && i < |h.snowfall| && h.snowfall[i].None?) ==>
      LegacyRowOf(day, h, snowDays) == Err(TypeError)
    ensures LegacyRowOf(day, h, snowDays).Ok? ==>
      var row := LegacyRowOf(day, h, snowDays).value;
      && row.date == DateString(day)
      && row.snowfallOvernight == SafeSum(Take(h.snowfall, 7))
      && row.snowfall24h == SafeSum(Take(h.snowfall, 24))
      && row.noSnowfallPenalty in {0, 1}
      && (row.noSnowfallPenalty == 1 <==> row.snowfallOvernight < 0.5)
      && |row.snowfall| == 8
      && (forall i :: 0 <= i < 8 ==> row.snowfall[i] == OrZero(h.snowfall[i]))
  {
    var s7 := Take(h.snowfall, 7);
    if exists i :: 0 <= i < 7 && i < |h.snowfall| && h.snowfall[i].None? {
      var i :| 0 <= i < 7 && i < |h.snowfall| && h.snowfall[i].None?;
      assert s7[i].None?;
    }
    SafeSumIsZeroFilledSum(Take(h.snowfall, 24));
  }

  /** Snowfall in hour 7 is a per-hour feature but never reaches the overnight total or
      the penalty: two days that differ only there get the same overnight features. */
  lemma OvernightIgnoresHourSeven(day: Day, h: LegacyHourly, snowDays: seq<string>, v: Option<real>)
    requires |h.snowfall| >= 8
    ensures var h' := h.(snowfall := h.snowfall[7 := v]);
      LegacyRowOf(day, h, snowDays).Ok? && LegacyRowOf(day, h', snowDays).Ok? ==>
        LegacyRowOf(day, h', snowDays).value.snowfallOvernight == LegacyRowOf(day, h, snowDays).value.snowfallOvernight
        && LegacyRowOf(day, h', snowDays).value.noSnowfallPenalty == LegacyRowOf(day, h, snowDays).value.noSnowfallPenalty
  {
    var h' := h.(snowfall := h.snowfall[7 := v]);
    assert Take(h'.snowfall, 7) == Take(h.snowfall, 7);
  }

  /** The rows the loop produces from day `current` to `end`. `responses` holds the `hourly`
      block the provider answers for each request `(date, useForecast)`; a request without an
      entry is a response without an `hourly` block. */
  function LegacyRows(responses: map<(string, bool), LegacyHourly>, snowDays: seq<string>,
                      useForecast: bool, current: Day, end: Day): Result<seq<LegacyRow>>
    decreases if current <= end then end - current + 1 else 0
  {
    if current > end then Ok([])
    else match DayStep(responses, snowDays, useForecast, current)
      case Err(e) => Err(e)
      case Ok(None) => LegacyRows(responses, snowDays, useForecast, current + 1, end)
      case Ok(Some(row)) => Prepend(row, LegacyRows(responses, snowDays, useForecast, current + 1, end))
  }

  /** What the loop does with day `d`: nothing on a weekend, otherwise the row built from
      the day's response, or the error that stops the run. */
  function DayStep(responses: map<(string, bool), LegacyHourly>, snowDays: seq<string>, useForecast: bool, d: Day)
    : Result<Option<LegacyRow>>
  {
    if !IsWeekday(d) then Ok(None)
    else match Lookup(responses, (DateString(d), useForecast))
      case None => Err(ValueError)
      case Some(h) =>
        match LegacyRowOf(d, h, snowDays)
        case Err(e) => Err(e)
        case Ok(row) => Ok(Some(row))
  }

  /** The body of the loop: the weekday test, the request and the row. */
  method ProcessDay(responses: map<(string, bool), LegacyHourly>, snowDays: seq<string>, useForecast: bool, current: Day)
    returns (step: Result<Option<LegacyRow>>)
    ensures step == DayStep(responses, snowDays, useForecast, current)
  {
    if !IsWeekday(current) {
      return Ok(None);
    }
    var dateStr := DateString(current);
    var data := Lookup(responses, (dateStr, useForecast));
    if data.None? {
      return Err(ValueError);
    }
    var row := BuildRow(current, data.value, snowDays);
    if row.Err? {
      return Err(row.error);
    }
    step := Ok(Some(row.value));
  }

  /** `get_data_within_timerange` of weather_fetcher.py. */
  method GetDataWithinTimerange(responses: map<(string, bool), LegacyHourly>, snowDays: seq<string>,
                                start: Day, end: Day, useForecast: bool)
    returns (r: Result<seq<LegacyRow>>)
    ensures r == LegacyRows(responses, snowDays, useForecast, start, end)
  {
    var rows: seq<LegacyRow> := [];
    var current := start;
    ghost var target := LegacyRows(responses, snowDays, useForecast, start, end);
    ChainNil(target);
    while current <= end
      invariant Chain(rows, LegacyRows(responses, snowDays, useForecast, current, end)) == target
      decreases end - current
    {
      var step := ProcessDay(responses, snowDays, useForecast, current);
      match step {
        case Err(e) =>
          return Err(e);
        case Ok(None) =>
        case Ok(Some(row)) =>
          ChainPrepend(rows, row, LegacyRows(responses, snowDays, useForecast, current + 1, end));
          rows := rows + [row];
      }
      current := current + 1;
    }
    assert rows + [] == rows;
    r := Ok(rows);
  }

  /** `row` is the row built from the response fetched for weekday `d`. */
  predicate RowOfDay(row: LegacyRow, responses: map<(string, bool), LegacyHourly>, snowDays: seq<string>,
                     useForecast: bool, d: Day)
  {
    && Lookup(responses, (DateString(d), useForecast)).Some?
    && LegacyRowOf(d, Lookup(responses, (DateString(d), useForecast)).value, snowDays) == Ok(row)
    && row.date == DateString(d)
  }

  /** A day that emits a row emits the row built from its response, dated by it. */
  lemma DayStepRow(responses: map<(string, bool), LegacyHourly>, snowDays: seq<string>, useForecast: bool, d: Day)
    requires DayStep(responses, snowDays, useForecast, d).Ok?
    requires DayStep(responses, snowDays, useForecast, d).value.Some?
    ensures RowOfDay(DayStep(responses, snowDays, useForecast, d).value.value, responses, snowDays, useForecast, d)
  {
  }

  /** Rows matched to the days of a working week are matched to Monday to Friday. */
  lemma RowsOfWeek(rows: seq<LegacyRow>, days: seq<Day>, responses: map<(string, bool), LegacyHourly>,
                   snowDays: seq<string>, useForecast: bool, m: Day)
    requires |rows| == 5 && days == [m, m + 1, m + 2, m + 3, m + 4]
    requires forall k :: 0 <= k < 5 ==> RowOfDay(rows[k], responses, snowDays, useForecast, days[k])
    ensures forall k :: 0 <= k < 5 ==> RowOfDay(rows[k], responses, snowDays, useForecast, m + k)
  {
    forall k | 0 <= k < 5 ensures RowOfDay(rows[k], responses, snowDays, useForecast, m + k) {
      assert days[k] == m + k;
    }
  }

  /** A successful run has exactly one row per weekday of the range, in ascending date
      order, each built from the response fetched for that weekday's date. */
  lemma {:induction false} LegacyRowsSpec(responses: map<(string, bool), LegacyHourly>, snowDays: seq<string>,
                                          useForecast: bool, current: Day, end: Day)
    requires LegacyRows(responses, snowDays, useForecast, current, end).Ok?
    ensures |LegacyRows(responses, snowDays, useForecast, current, end).value| == |WeekdaysIn(current, end)|
    ensures forall k :: 0 <= k < |WeekdaysIn(current, end)| ==>
      RowOfDay(LegacyRows(responses, snowDays, useForecast, current, end).value[k], responses, snowDays, useForecast,
               WeekdaysIn(current, end)[k])
    decreases if current <= end then end - current + 1 else 0
  {
    if current <= end {
      LegacyRowsSpec(responses, snowDays, useForecast, current + 1, end);
      var rows := LegacyRows(responses, snowDays, useForecast, current, end).value;
      var rest := LegacyRows(responses, snowDays, useForecast, current + 1, end).value;
      var days := WeekdaysIn(current, end);
      var later := WeekdaysIn(current + 1, end);
      if IsWeekday(current) {
        var row := DayStep(responses, snowDays, useForecast, current).value.value;
        DayStepRow(responses, snowDays, useForecast, current);
        assert rows == [row] + rest;
        assert days == [current] + later;
        forall k | 0 <= k < |days|
          ensures RowOfDay(rows[k], responses, snowDays, useForecast, days[k])
        {
          if k > 0 {
            assert rows[k] == rest[k - 1] && days[k] == later[k - 1];
          }
        }
      } else {
        assert rows == rest && days == later;
      }
    }
  }

  /** A working week yields, when it yields anything, five rows: Monday to Friday in order. */
  lemma WorkWeekRows(responses: map<(string, bool), LegacyHourly>, snowDays: seq<string>,
                     useForecast: bool, rg: Range, monday: Day)
    requires IsWorkWeek(rg) && rg.first == monday
    requires LegacyRows(responses, snowDays, useForecast, rg.first, rg.last).Ok?
    ensures |LegacyRows(responses, snowDays, useForecast, rg.first, rg.last).value| == 5
    ensures forall k :: 0 <= k < 5 ==>
      RowOfDay(LegacyRows(responses, snowDays, useForecast, rg.first, rg.last).value[k], responses, snowDays,
               useForecast, monday + k)
  {
    LegacyRowsSpec(responses, snowDays, useForecast, rg.first, rg.last);
    WorkWeekDays(rg);
    var rows := LegacyRows(responses, snowDays, useForecast, rg.first, rg.last).value;
    var days := WeekdaysIn(rg.first, rg.last);
    RowsOfWeek(rows, days, responses, snowDays, useForecast, monday);
  }

  /** A one-day range yields no row on a weekend and, when it yields any, one row on a
      weekday. */
  lemma SingleDayRows(responses: map<(string, bool), LegacyHourly>, snowDays: seq<string>,
                      useForecast: bool, d: Day)
    ensures !IsWeekday(d) ==> LegacyRows(responses, snowDays, useForecast, d, d) == Ok([])
    ensures IsWeekday(d) && LegacyRows(responses, snowDays, useForecast, d, d).Ok? ==>
      var rows := LegacyRows(responses, snowDays, useForecast, d, d).value;
      |rows| == 1 && RowOfDay(rows[0], responses, snowDays, useForecast, d)
  {
    if IsWeekday(d) && LegacyRows(responses, snowDays, useForecast, d, d).Ok? {
      LegacyRowsSpec(responses, snowDays, useForecast, d, d);
      assert WeekdaysIn(d, d) == [d] + WeekdaysIn(d + 1, d);
    }
  }

  /** `get_last_weeks_data`: last week's Monday to Friday. */
  method GetLastWeeksData(responses: map<(string, bool), LegacyHourly>, snowDays: seq<string>,
                          today: Day, useForecast: bool)
    returns (r: Result<seq<LegacyRow>>)
    ensures r == LegacyRows(responses, snowDays, useForecast, LastWeek(today).first, LastWeek(today).last)
    ensures r.Ok? ==> |r.value| == 5 && forall k :: 0 <= k < 5 ==>
      RowOfDay(r.value[k], responses, snowDays, useForecast, ThisWeek(today).first - 7 + k)
  {
    var rg := LastWeek(today);
    r := GetDataWithinTimerange(responses, snowDays, rg.first, rg.last, useForecast);
    LastWeekIsWorkWeek(today);
    if r.Ok? {
      WorkWeekRows(responses, snowDays, useForecast, rg, ThisWeek(today).first - 7);
    }
  }

  /** `get_this_weeks_data`: this week's Monday to Friday from the forecast; on a weekday,
      today's row is among them. */
  method GetThisWeeksData(responses: map<(string, bool), LegacyHourly>, snowDays: seq<string>, today: Day)
    returns (r: Result<seq<LegacyRow>>)
    ensures r == LegacyRows(responses, snowDays, true, ThisWeek(today).first, ThisWeek(today).last)
    ensures r.Ok? ==> |r.value| == 5 && forall k :: 0 <= k < 5 ==>
      RowOfDay(r.value[k], responses, snowDays, true, ThisWeek(today).first + k)
    ensures r.Ok? && IsWeekday(today) ==>
      RowOfDay(r.value[today - ThisWeek(today).first], responses, snowDays, true, today)
  {
    var rg := ThisWeek(today);
    r := GetDataWithinTimerange(responses, snowDays, rg.first, rg.last, true);
    ThisWeekIsWorkWeek(today);
    if r.Ok? {
      WorkWeekRows(responses, snowDays, true, rg, ThisWeek(today).first);
    }
  }

  /** `get_next_weeks_data`: next week's Monday to Friday from the forecast, all after today. */
  method GetNextWeeksData(responses: map<(string, bool), LegacyHourly>, snowDays: seq<string>, today: Day)
    returns (r: Result<seq<LegacyRow>>)
    ensures r == LegacyRows(responses, snowDays, true, NextWeek(today).first, NextWeek(today).last)
    ensures r.Ok? ==> |r.value| == 5 && forall k :: 0 <= k < 5 ==>
      RowOfDay(r.value[k], responses, snowDays, true, ThisWeek(today).first + 7 + k)
    ensures r.Ok? ==> today < ThisWeek(today).first + 7
  {
    var rg := NextWeek(today);
    r := GetDataWithinTimerange(responses, snowDays, rg.first, rg.last, true);
    NextWeekIsWorkWeek(today);
    if r.Ok? {
      WorkWeekRows(responses, snowDays, true, rg, ThisWeek(today).first + 7);
    }
  }

  /** `get_todays_data`: today's row from the forecast; nothing at all on a weekend. */
  method GetTodaysData(responses: map<(string, bool), LegacyHourly>, snowDays: seq<string>, today: Day)
    returns (r: Result<seq<LegacyRow>>)
    ensures r == LegacyRows(responses, snowDays, true, Today(today).first, Today(today).last)
    ensures !IsWeekday(today) ==> r == Ok([])
    ensures IsWeekday(today) && r.Ok? ==> |r.value| == 1 && RowOfDay(r.value[0], responses, snowDays, true, today)
  {
    r := GetDataWithinTimerange(responses, snowDays, today, today, true);
    SingleDayRows(responses, snowDays, true, today);
  }
}
