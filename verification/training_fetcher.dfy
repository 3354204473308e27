/** The training-data script (training_data_fetcher.py): for every weekday of a fixed
    range, eight hours of five raw series and the snow-day label. */
module TrainingFetcher {
  import opened Common
  import opened Calendar
  import opened Series
  import opened Features

  /** `START_DATE`, 2025-12-07 (a Sunday), as a day number (see `StartDateText`). */
  const StartDate: Day := 20429
  /** `END_DATE`, 2025-12-12 (a Friday), as a day number (see `EndDateText`). */
  const EndDate: Day := 20434

  /** The `hourly` block of a one-day archive response. */
  datatype TrainingHourly = TrainingHourly(
    temperature: seq<Option<real>>,
    snowfall: seq<Option<real>>,
    windSpeed: seq<Option<real>>,
    visibility: seq<Option<real>>,
    precipitationType: seq<Option<real>>)

  datatype TrainingRow = TrainingRow(
    date: string,
    snowDay: int,
    temperature: seq<real>,        // temperature0..7
    snowfall: seq<real>,           // snowfall0..7
    windSpeed: seq<real>,          // windspeed0..7
    visibility: seq<real>,         // visibility0..7
    precipitationType: seq<real>)  // precip_type0..7

  predicate HoursAvailable(h: TrainingHourly)
  {
    && |h.temperature| >= 8 && |h.snowfall| >= 8 && |h.windSpeed| >= 8
    && |h.visibility| >= 8 && |h.precipitationType| >= 8
  }

  /** The row of one weekday: hours 0..7 of each series with a missing value counted as
      0, or the `IndexError` of a series shorter than eight hours. */
  function TrainingRowOf(day: Day, h: TrainingHourly, snowDays: seq<string>): Result<TrainingRow>
  {
    if !HoursAvailable(h) then Err(IndexError)
    else Ok(TrainingRow(
      date := DateString(day),
      snowDay := SnowDayLabel(DateString(day), snowDays),
      temperature := ZeroFilled(h.temperature[..8]),
      snowfall := ZeroFilled(h.snowfall[..8]),
      windSpeed := ZeroFilled(h.windSpeed[..8]),
      visibility := ZeroFilled(h.visibility[..8]),
      precipitationType := ZeroFilled(h.precipitationType[..8])))
  }

  /** The body of the script's loop for one weekday: the label, then the `for h in range(8)`
      loop over the five series. */
  method BuildRow(day: Day, h: TrainingHourly, snowDays: seq<string>) returns (r: Result<TrainingRow>)
    ensures r == TrainingRowOf(day, h, snowDays)
  {
    var dateStr := DateString(day);
    var flag := SnowDayLabel(dateStr, snowDays);
    var temperature, snowfall, windSpeed, visibility, precipitationType := [], [], [], [], [];
    for hour := 0 to 8
      invariant hour <= |h.temperature| && hour <= |h.snowfall| && hour <= |h.windSpeed|
      invariant hour <= |h.visibility| && hour <= |h.precipitationType|
      invariant temperature == ZeroFilled(h.temperature[..hour])
      invariant snowfall == ZeroFilled(h.snowfall[..hour])
      invariant windSpeed == ZeroFilled(h.windSpeed[..hour])
      invariant visibility == ZeroFilled(h.visibility[..hour])
      invariant precipitationType == ZeroFilled(h.precipitationType[..hour])
    {
      if hour >= |h.temperature| || hour >= |h.snowfall| || hour >= |h.windSpeed|
         || hour >= |h.visibility| || hour >= |h.precipitationType| {
        return Err(IndexError);
      }
      temperature := temperature + [OrZero(h.temperature[hour])];
      snowfall := snowfall + [OrZero(h.snowfall[hour])];
      windSpeed := windSpeed + [OrZero(h.windSpeed[hour])];
      visibility := visibility + [OrZero(h.visibility[hour])];
      precipitationType := precipitationType + [OrZero(h.precipitationType[hour])];
      ZeroFilledSnoc(h.temperature, hour);
      ZeroFilledSnoc(h.snowfall, hour);
      ZeroFilledSnoc(h.windSpeed, hour);
      ZeroFilledSnoc(h.visibility, hour);
      ZeroFilledSnoc(h.precipitationType, hour);
    }
    r := Ok(TrainingRow(dateStr, flag, temperature, snowfall, windSpeed, visibility, precipitationType));
  }

  /** A row exists exactly when every series covers eight hours; it then holds forty raw
      hourly values, each the fetched value or 0 where it was missing, and the label says
      whether the date is a listed snow day. */
  lemma TrainingRowOfSpec(day: Day, h: TrainingHourly, snowDays: seq<string>)
    ensures TrainingRowOf(day, h, snowDays).Ok? <==> HoursAvailable(h)
    ensures TrainingRowOf(day, h, snowDays).Err? ==> TrainingRowOf(day, h, snowDays).error == IndexError
    ensures TrainingRowOf(day, h, snowDays).Ok? ==>
      var row := TrainingRowOf(day, h, snowDays).value;
      && row.date == DateString(day)
      && (row.snowDay == 1 <==> DateString(day) in snowDays)
      && |row.temperature| == |row.snowfall| == |row.windSpeed| == |row.visibility| == |row.precipitationType| == 8
      && (forall i :: 0 <= i < 8 ==> row.temperature[i] == OrZero(h.temperature[i]))
      && (forall i :: 0 <= i < 8 ==> row.snowfall[i] == OrZero(h.snowfall[i]))
      && (forall i :: 0 <= i < 8 ==> row.windSpeed[i] == OrZero(h.windSpeed[i]))
      && (forall i :: 0 <= i < 8 ==> row.visibility[i] == OrZero(h.visibility[i]))
      && (forall i :: 0 <= i < 8 ==> row.precipitationType[i] == OrZero(h.precipitationType[i]))
  {
  }

  /** The rows the script's loop produces from day `current` to `end`. `responses` holds
      the `hourly` block of the archive response for each date; a date without an entry is
      a response without an `hourly` block. */
  function TrainingRows(responses: map<string, TrainingHourly>, snowDays: seq<string>,
                        current: Day, end: Day): Result<seq<TrainingRow>>
    decreases if current <= end then end - current + 1 else 0
  {
    if current > end then Ok([])
    else match DayStep(responses, snowDays, current)
      case Err(e) => Err(e)
      case Ok(None) => TrainingRows(responses, snowDays, current + 1, end)
      case Ok(Some(row)) => Prepend(row, TrainingRows(responses, snowDays, current + 1, end))
  }

  /** What the loop does with day `d`: nothing on a weekend, otherwise the row built from
      the day's response, or the error that stops the script. */
  function DayStep(responses: map<string, TrainingHourly>, snowDays: seq<string>, d: Day)
    : Result<Option<TrainingRow>>
  {
    if !IsWeekday(d) then Ok(None)
    else match Lookup(responses, DateString(d))
      case None => Err(ValueError)
      case Some(h) =>
        match TrainingRowOf(d, h, snowDays)
        case Err(e) => Err(e)
        case Ok(row) => Ok(Some(row))
  }

  /** The body of the loop: the weekday test, the request and the row. */
  method ProcessDay(responses: map<string, TrainingHourly>, snowDays: seq<string>, current: Day)
    returns (step: Result<Option<TrainingRow>>)
    ensures step == DayStep(responses, snowDays, current)
  {
    if !IsWeekday(current) {
      return Ok(None);
    }
    var data := Lookup(responses, DateString(current));
    if data.None? {
      return Err(ValueError);
    }
    var row := BuildRow(current, data.value, snowDays);
    if row.Err? {
      return Err(row.error);
    }
    step := Ok(Some(row.value));
  }

  /** The script's `while current <= end` loop over `[start, end]`. */
  method CollectRows(responses: map<string, TrainingHourly>, snowDays: seq<string>, start: Day, end: Day)
    returns (r: Result<seq<TrainingRow>>)
    ensures r == TrainingRows(responses, snowDays, start, end)
  {
    var rows: seq<TrainingRow> := [];
    var current := start;
    ghost var target := TrainingRows(responses, snowDays, start, end);
    ChainNil(target);
    while current <= end
      invariant Chain(rows, TrainingRows(responses, snowDays, current, end)) == target
      decreases end - current
    {
      var step := ProcessDay(responses, snowDays, current);
      match step {
        case Err(e) =>
          return Err(e);
        case Ok(None) =>
        case Ok(Some(row)) =>
          ChainPrepend(rows, row, TrainingRows(responses, snowDays, current + 1, end));
          rows := rows + [row];
      }
      current := current + 1;
    }
    assert rows + [] == rows;
    r := Ok(rows);
  }

  /** `row` is the row built from the response fetched for weekday `d`. */
  predicate RowOfDay(row: TrainingRow, responses: map<string, TrainingHourly>, snowDays: seq<string>, d: Day)
  {
    && Lookup(responses, DateString(d)).Some?
    && TrainingRowOf(d, Lookup(responses, DateString(d)).value, snowDays) == Ok(row)
    && row.date == DateString(d)
  }

  /** A day that emits a row emits the row built from its response, dated by it. */
  lemma DayStepRow(responses: map<string, TrainingHourly>, snowDays: seq<string>, d: Day)
    requires DayStep(responses, snowDays, d).Ok?
    requires DayStep(responses, snowDays, d).value.Some?
    ensures RowOfDay(DayStep(responses, snowDays, d).value.value, responses, snowDays, d)
  {
  }

  /** A successful run has exactly one row per weekday of the range, in ascending date
      order, each built from the response fetched for that weekday's date. */
  lemma {:induction false} TrainingRowsSpec(responses: map<string, TrainingHourly>, snowDays: seq<string>,
                                            current: Day, end: Day)
    requires TrainingRows(responses, snowDays, current, end).Ok?
    ensures |TrainingRows(responses, snowDays, current, end).value| == |WeekdaysIn(current, end)|
    ensures forall k :: 0 <= k < |WeekdaysIn(current, end)| ==>
      RowOfDay(TrainingRows(responses, snowDays, current, end).value[k], responses, snowDays,
               WeekdaysIn(current, end)[k])
    decreases if current <= end then end - current + 1 else 0
  {
    if current <= end {
      TrainingRowsSpec(responses, snowDays, current + 1, end);
      var rows := TrainingRows(responses, snowDays, current, end).value;
      var rest := TrainingRows(responses, snowDays, current + 1, end).value;
      var days := WeekdaysIn(current, end);
      var later := WeekdaysIn(current + 1, end);
      if IsWeekday(current) {
        var row := DayStep(responses, snowDays, current).value.value;
        DayStepRow(responses, snowDays, current);
        assert rows == [row] + rest;
        assert days == [current] + later;
        forall k | 0 <= k < |days|
          ensures RowOfDay(rows[k], responses, snowDays, days[k])
        {
          if k > 0 {
            assert rows[k] == rest[k - 1] && days[k] == later[k - 1];
          }
        }
      } else {
        assert rows == rest && days == later;
      }
    }
  }

  /** A Sunday followed by five days holds exactly the five weekdays after the Sunday. */
  lemma SundayToFriday(s: Day)
    requires Weekday(s) == 6
    ensures WeekdaysIn(s, s + 5) == [s + 1, s + 2, s + 3, s + 4, s + 5]
  {
    WeekdayNext(s);
    WeekdayNext(s + 1);
    WeekdayNext(s + 2);
    WeekdayNext(s + 3);
    WeekdayNext(s + 4);
    assert WeekdaysIn(s + 5, s + 5) == [s + 5] + WeekdaysIn(s + 6, s + 5);
    assert WeekdaysIn(s + 4, s + 5) == [s + 4] + WeekdaysIn(s + 5, s + 5);
    assert WeekdaysIn(s + 3, s + 5) == [s + 3] + WeekdaysIn(s + 4, s + 5);
    assert WeekdaysIn(s + 2, s + 5) == [s + 2] + WeekdaysIn(s + 3, s + 5);
    assert WeekdaysIn(s + 1, s + 5) == [s + 1] + WeekdaysIn(s + 2, s + 5);
  }

  /** Rows matched to the five weekdays after Sunday `s` are matched to Monday to Friday. */
  lemma RowsOfWeek(rows: seq<TrainingRow>, days: seq<Day>, responses: map<string, TrainingHourly>,
                   snowDays: seq<string>, s: Day)
    requires |rows| == 5 && days == [s + 1, s + 2, s + 3, s + 4, s + 5]
    requires forall k :: 0 <= k < 5 ==> RowOfDay(rows[k], responses, snowDays, days[k])
    ensures forall k :: 0 <= k < 5 ==> RowOfDay(rows[k], responses, snowDays, s + 1 + k)
  {
    forall k | 0 <= k < 5 ensures RowOfDay(rows[k], responses, snowDays, s + 1 + k) {
      assert days[k] == s + 1 + k;
    }
  }

  /** A run from Sunday `s` to the Friday `e` after it yields, when it yields anything,
      five rows: Monday to Friday in order. */
  lemma SundayStartRows(responses: map<string, TrainingHourly>, snowDays: seq<string>, s: Day, e: Day)
    requires Weekday(s) == 6 && e == s + 5
    requires TrainingRows(responses, snowDays, s, e).Ok?
    ensures |TrainingRows(responses, snowDays, s, e).value| == 5
    ensures forall k :: 0 <= k < 5 ==>
      RowOfDay(TrainingRows(responses, snowDays, s, e).value[k], responses, snowDays, s + 1 + k)
  {
    TrainingRowsSpec(responses, snowDays, s, e);
    SundayToFriday(s);
    var rows := TrainingRows(responses, snowDays, s, e).value;
    RowsOfWeek(rows, WeekdaysIn(s, e), responses, snowDays, s);
  }

  /** The configured range is 2025-12-07 to 2025-12-12: it starts on a Sunday and ends on
      the Friday after it. */
  lemma ConfiguredRange()
    ensures DateString(StartDate) == "2025-12-07" && DateString(EndDate) == "2025-12-12"
    ensures Weekday(StartDate) == 6 && Weekday(EndDate) == 4 && EndDate == StartDate + 5
  {
    StartDateText();
    EndDateText();
  }

  /** `START_DATE` is the day number of 2025-12-07. */
  lemma StartDateCivil()
    ensures Civil(StartDate) == (2025, 12, 7)
  {
    assert DaysBefore(2025) == 20089;
    CivilFromYear(StartDate, 2025);
  }

  /** `END_DATE` is the day number of 2025-12-12. */
  lemma EndDateCivil()
    ensures Civil(EndDate) == (2025, 12, 12)
  {
    assert DaysBefore(2025) == 20089;
    CivilFromYear(EndDate, 2025);
  }

  /** `START_DATE` as text. */
  lemma StartDateText()
    ensures DateString(StartDate) == "2025-12-07"
  {
    StartDateCivil();
    PadYear();
    assert Pad(12, 2) == "12";
    assert Pad(7, 2) == "07";
  }

  /** `END_DATE` as text. */
  lemma EndDateText()
    ensures DateString(EndDate) == "2025-12-12"
  {
    EndDateCivil();
    PadYear();
    assert Pad(12, 2) == "12";
  }

  /** The year 2025 as four digits. */
  lemma PadYear()
    ensures Pad(2025, 4) == "2025"
  {
  }

  /** The script as a whole: the rows of `[START_DATE, END_DATE]`; a successful run has five
      rows, one for each weekday after the Sunday start. */
  method Run(responses: map<string, TrainingHourly>, snowDays: seq<string>)
    returns (r: Result<seq<TrainingRow>>)
    ensures r == TrainingRows(responses, snowDays, StartDate, EndDate)
    ensures r.Ok? ==> |r.value| == 5 && forall k :: 0 <= k < 5 ==> RowOfDay(r.value[k], responses, snowDays, StartDate + 1 + k)
  {
    r := CollectRows(responses, snowDays, StartDate, EndDate);
    if r.Ok? {
      ConfiguredRange();
      SundayStartRows(responses, snowDays, StartDate, EndDate);
    }
  }
}
