/** The live feature builder of the prediction service (api/weather_fetcher.py): one
    feature row per weekday, built from a single Open-Meteo response covering the range. */
module LiveFetcher {
  import opened Common
  import opened Text
  import opened Calendar
  import opened Series
  import opened Features
  import opened WeekRanges

  const DefaultLatitude: real := 44.569
  const DefaultLongitude: real := -80.98

  /** The `hourly` block of a response. `time` holds the calendar date ("%Y-%m-%d") of each
      timestamp, as `pd.to_datetime(...).strftime` gives it; the other columns are indexed
      like `time` and a missing observation is `None`. */
  datatype Hourly = Hourly(
    time: seq<string>,
    temperature: seq<Option<real>>,
    dewPoint: seq<Option<real>>,
    precipitation: seq<Option<real>>,
    snowfall: seq<Option<real>>,
    weatherCode: seq<Option<int>>,
    windSpeed: seq<Option<real>>,
    windGusts: seq<Option<real>>)

  /** The `daily` block of a response. */
  datatype Daily = Daily(
    time: seq<string>,
    temperatureMin: seq<Option<real>>,
    windGustsMax: seq<Option<real>>)

  /** One day of the `daily` block: `{key: daily[key][day_index] for key in daily}`. */
  datatype DailyValues = DailyValues(
    time: string,
    temperatureMin: Option<real>,
    windGustsMax: Option<real>)

  /** A decoded response; a block the provider did not send is `None`. */
  datatype Response = Response(hourly: Option<Hourly>, daily: Option<Daily>)

  /** What `fetch_weather` asks the provider for. */
  datatype Request = Request(startDate: string, endDate: string, lat: real, lon: real, useForecast: bool)

  // ---------------------------------------------------------------- slicing one day

  /** The indices whose timestamp falls on `target`, in ascending order: the `True`
      positions of the pandas mask. */
  function Matching(times: seq<string>, target: string): seq<nat>
  {
    if |times| == 0 then []
    else
      var rest := Matching(times[..|times| - 1], target);
      if times[|times| - 1] == target then rest + [|times| - 1] else rest
  }

  /** Every index `Matching` lists is a position of `times` holding `target`. */
  lemma {:induction false} MatchingSound(times: seq<string>, target: string)
    ensures forall k :: 0 <= k < |Matching(times, target)| ==>
      Matching(times, target)[k] < |times| && times[Matching(times, target)[k]] == target
  {
    if |times| > 0 {
      var init := times[..|times| - 1];
      MatchingSound(init, target);
      var rest := Matching(init, target);
      var idx := Matching(times, target);
      forall k | 0 <= k < |idx| ensures idx[k] < |times| && times[idx[k]] == target {
        if k < |rest| {
          assert idx[k] == rest[k];
          assert init[rest[k]] == times[rest[k]];
        }
      }
    }
  }

  /** Every position of `times` holding `target` is listed. */
  lemma {:induction false} MatchingComplete(times: seq<string>, target: string)
    ensures forall i :: 0 <= i < |times| && times[i] == target ==> i in Matching(times, target)
  {
    if |times| > 0 {
      var init := times[..|times| - 1];
      MatchingComplete(init, target);
      var rest := Matching(init, target);
      var idx := Matching(times, target);
      forall i | 0 <= i < |times| && times[i] == target ensures i in idx {
        if i < |init| {
          assert init[i] == times[i];
          assert i in rest;
        }
      }
    }
  }

  /** The listed indices ascend. */
  lemma {:induction false} MatchingAscending(times: seq<string>, target: string)
    ensures forall k, l :: 0 <= k < l < |Matching(times, target)| ==>
      Matching(times, target)[k] < Matching(times, target)[l]
  {
    if |times| > 0 {
      var init := times[..|times| - 1];
      MatchingAscending(init, target);
      MatchingSound(init, target);
      var rest := Matching(init, target);
      var idx := Matching(times, target);
      forall k, l | 0 <= k < l < |idx| ensures idx[k] < idx[l] {
        if l < |rest| {
          assert idx[k] == rest[k] && idx[l] == rest[l];
        } else {
          assert idx[k] == rest[k] && rest[k] < |init|;
        }
      }
    }
  }

  /** `Matching` lists every matching index and nothing else, in ascending order. */
  lemma MatchingSpec(times: seq<string>, target: string)
    ensures var idx := Matching(times, target);
      && (forall k :: 0 <= k < |idx| ==> idx[k] < |times| && times[idx[k]] == target)
      && (forall i :: 0 <= i < |times| && times[i] == target ==> i in idx)
      && (forall k, l :: 0 <= k < l < |idx| ==> idx[k] < idx[l])
  {
    MatchingSound(times, target);
    MatchingComplete(times, target);
    MatchingAscending(times, target);
  }

  predicate Fits<T>(col: seq<T>, idx: seq<nat>)
  {
    forall k :: 0 <= k < |idx| ==> idx[k] < |col|
  }

  /** `[col[i] for i, ok in enumerate(mask) if ok]` */
  function Pick<T>(col: seq<T>, idx: seq<nat>): seq<T>
    requires Fits(col, idx)
  {
    seq(|idx|, k requires 0 <= k < |idx| => col[idx[k]])
  }

  /** `sub` is the sub-list of `col` at the indices `idx`, in that order. */
  predicate SelectedAt<T(==)>(sub: seq<T>, col: seq<T>, idx: seq<nat>)
  {
    |sub| == |idx| && forall k :: 0 <= k < |idx| ==> idx[k] < |col| && sub[k] == col[idx[k]]
  }

  predicate AllFit(h: Hourly, idx: seq<nat>)
  {
    Fits(h.time, idx) && Fits(h.temperature, idx) && Fits(h.dewPoint, idx)
    && Fits(h.precipitation, idx) && Fits(h.snowfall, idx) && Fits(h.weatherCode, idx)
    && Fits(h.windSpeed, idx) && Fits(h.windGusts, idx)
  }

  /** Every column of the block cut down to the hours `idx`. */
  function Slice(h: Hourly, idx: seq<nat>): Hourly
    requires AllFit(h, idx)
  {
    Hourly(Pick(h.time, idx), Pick(h.temperature, idx), Pick(h.dewPoint, idx),
      Pick(h.precipitation, idx), Pick(h.snowfall, idx), Pick(h.weatherCode, idx),
      Pick(h.windSpeed, idx), Pick(h.windGusts, idx))
  }

  /** `get_hourly_for_date`: `None` when no timestamp falls on `target`, otherwise every
      column cut down to the matching hours; a column too short for a matching index is
      the `IndexError` of the comprehension. */
  function HourlyForDate(h: Hourly, target: string): Result<Option<Hourly>>
  {
    var idx := Matching(h.time, target);
    if |idx| == 0 then Ok(None)
    else if !AllFit(h, idx) then Err(IndexError)
    else Ok(Some(Slice(h, idx)))
  }

  /** What `get_hourly_for_date` returns: `None` exactly when no timestamp falls on the
      date; otherwise each column restricted to the matching hours, in order, or an
      `IndexError` when a column is too short for them. */
  lemma HourlyForDateSpec(h: Hourly, target: string)
    ensures var r := HourlyForDate(h, target);
      && (r == Ok(None) <==> forall i :: 0 <= i < |h.time| ==> h.time[i] != target)
      && (r.Err? ==> r.error == IndexError)
      && (r.Ok? && r.value.Some? ==>
            var idx := Matching(h.time, target);
            var s := r.value.value;
            && |idx| > 0
            && SelectedAt(s.time, h.time, idx) && SelectedAt(s.temperature, h.temperature, idx)
            && SelectedAt(s.dewPoint, h.dewPoint, idx) && SelectedAt(s.precipitation, h.precipitation, idx)
            && SelectedAt(s.snowfall, h.snowfall, idx) && SelectedAt(s.weatherCode, h.weatherCode, idx)
            && SelectedAt(s.windSpeed, h.windSpeed, idx) && SelectedAt(s.windGusts, h.windGusts, idx))
  {
    var idx := Matching(h.time, target);
    MatchingSound(h.time, target);
    MatchingComplete(h.time, target);
    if |idx| > 0 {
      assert idx[0] < |h.time| && h.time[idx[0]] == target;
    }
  }

  /** `list(mask).index(True)`: the first index whose timestamp falls on `target`. */
  function FirstIndex(times: seq<string>, target: string): (r: Option<nat>)
    ensures r.Some? ==> r.value < |times| && times[r.value] == target
    ensures r.Some? ==> forall j :: 0 <= j < r.value ==> times[j] != target
    ensures r.None? ==> forall j :: 0 <= j < |times| ==> times[j] != target
  {
    if |times| == 0 then None
    else if times[0] == target then Some(0)
    else
      match FirstIndex(times[1..], target)
      case None => None
      case Some(i) => Some(i + 1)
  }

  /** `get_daily_for_date`: the values of the first day of the block that falls on `target`. */
  function DailyForDate(dl: Daily, target: string): Result<Option<DailyValues>>
  {
    match FirstIndex(dl.time, target)
    case None => Ok(None)
    case Some(i) =>
      if i < |dl.temperatureMin| && i < |dl.windGustsMax|
      then Ok(Some(DailyValues(dl.time[i], dl.temperatureMin[i], dl.windGustsMax[i])))
      else Err(IndexError)
  }

  /** What `get_daily_for_date` returns: `None` exactly when no day of the block falls on
      the date; otherwise the values at the first such day, or an `IndexError` when a
      column is too short for it. */
  lemma DailyForDateSpec(dl: Daily, target: string)
    ensures var r := DailyForDate(dl, target);
      && (r == Ok(None) <==> forall j :: 0 <= j < |dl.time| ==> dl.time[j] != target)
      && (r.Err? ==> r.error == IndexError)
      && (r.Ok? && r.value.Some? ==> exists i ::
            && 0 <= i < |dl.time| && dl.time[i] == target
            && (forall j :: 0 <= j < i ==> dl.time[j] != target)
            && i < |dl.temperatureMin| && i < |dl.windGustsMax|
            && r.value.value == DailyValues(dl.time[i], dl.temperatureMin[i], dl.windGustsMax[i]))
  {
  }

  // ---------------------------------------------------------------- one feature row

  /** Weather codes for drizzle, rain and freezing rain. */
  const FreezingCodes: set<int> := {51, 53, 55, 61, 63, 65, 66, 67}

  /** Weather codes for snow. */
  const SnowCodes: set<int> := {71, 73, 75, 77, 85, 86}

  /** `any(code in s for code in codes)`; a missing code is in no set. */
  predicate AnyCodeIn(codes: seq<Option<int>>, s: set<int>)
  {
    exists i :: 0 <= i < |codes| && codes[i].Some? && codes[i].value in s
  }

  /** `freezing_rain`: a drizzle/rain/freezing-rain code in the first 17 hours and a daily
      minimum in [-2, 1]. The minimum is compared only when such a code occurs, and then
      comparing a missing minimum raises `TypeError`. */
  function FreezingRain(codes: seq<Option<int>>, temperatureMin: Option<real>): (r: Result<bool>)
    ensures r.Err? <==> AnyCodeIn(Take(codes, 17), FreezingCodes) && temperatureMin.None?
    ensures r.Ok? ==> (r.value <==>
      AnyCodeIn(Take(codes, 17), FreezingCodes) && -2.0 <= temperatureMin.value <= 1.0)
  {
    if !AnyCodeIn(Take(codes, 17), FreezingCodes) then Ok(false)
    else if temperatureMin.None? then Err(TypeError)
    else Ok(-2.0 <= temperatureMin.value <= 1.0)
  }

  /** The value of a per-hour field: the series value at `h`, or 0 past the end. */
  function HourAt(xs: seq<Option<real>>, h: nat): Option<real>
  {
    if h < |xs| then xs[h] else Some(0.0)
  }

  function HourFields(xs: seq<Option<real>>): seq<Option<real>>
  {
    seq(8, h requires 0 <= h < 8 => HourAt(xs, h))
  }

  /** `weather_code0..7`: every hour gets the same flag, whether any code of the whole day
      is a snow code. */
  function SnowFlags(codes: seq<Option<int>>): seq<bool>
  {
    seq(8, h => AnyCodeIn(codes, SnowCodes))
  }

  datatype LiveRow = LiveRow(
    date: string,
    snowDay: int,
    snowfallLast24h: real,
    snowfallLast12h: real,
    snowfallOvernight: real,
    snowfall24h: real,
    precipitationOvernight: real,
    precipitation24h: real,
    noSnowfallPenalty: int,
    freezingRain: bool,
    tempMinOvernight: Option<real>,
    windSpeedAvgOvernight: real,
    windGustsMaxOvernight: Option<real>,
    dewpointAvgOvernight: real,
    temperature: seq<Option<real>>,    // temperature0..7
    precipitation: seq<Option<real>>,  // precipitation0..7
    snowfall: seq<Option<real>>,       // snowfall0..7
    windSpeed: seq<Option<real>>,      // wind_speed0..7
    windGusts: seq<Option<real>>,      // wind_gusts0..7
    weatherCode: seq<bool>)            // weather_code0..7

  /** The last-24h/12h snowfall: yesterday's tail plus tonight, or 0 with no yesterday. */
  function SnowfallSince(yesterdaySnow: seq<Option<real>>, from: nat, overnight: real): real
  {
    if |yesterdaySnow| > 0 then SafeSum(Drop(yesterdaySnow, from)) + overnight else 0.0
  }

  /** The row the loop body builds for weekday `day` from that day's slices and the
      previous iterated day's snowfall series `yesterdaySnow`. */
  function LiveRowOf(day: Day, today: Hourly, daily: DailyValues, snowDays: seq<string>,
                     yesterdaySnow: seq<Option<real>>): Result<LiveRow>
  {
    var overnight := SafeSum(Take(today.snowfall, 8));
    var total := SafeSum(today.snowfall);
    match FreezingRain(today.weatherCode, daily.temperatureMin)
    case Err(e) => Err(e)
    case Ok(freezing) =>
      Ok(LiveRow(
        date := DateString(day),
        snowDay := SnowDayLabel(DateString(day), snowDays),
        snowfallLast24h := SnowfallSince(yesterdaySnow, 7, overnight),
        snowfallLast12h := SnowfallSince(yesterdaySnow, 20, overnight),
        snowfallOvernight := overnight,
        snowfall24h := total,
        precipitationOvernight := SafeSum(Take(today.precipitation, 8)),
        precipitation24h := SafeSum(today.precipitation),
        noSnowfallPenalty := NoSnowfallPenalty(total, overnight),
        freezingRain := freezing,
        tempMinOvernight := daily.temperatureMin,
        windSpeedAvgOvernight := SafeMean(Take(today.windSpeed, 8)),
        windGustsMaxOvernight := daily.windGustsMax,
        dewpointAvgOvernight := SafeMean(Take(today.dewPoint, 8)),
        temperature := HourFields(today.temperature),
        precipitation := HourFields(today.precipitation),
        snowfall := HourFields(today.snowfall),
        windSpeed := HourFields(today.windSpeed),
        windGusts := HourFields(today.windGusts),
        weatherCode := SnowFlags(today.weatherCode)))
  }

  /** A row is built unless the freezing-rain test has to compare a missing minimum. */
  lemma LiveRowOfError(day: Day, today: Hourly, daily: DailyValues, snowDays: seq<string>,
                       yesterdaySnow: seq<Option<real>>)
    ensures LiveRowOf(day, today, daily, snowDays, yesterdaySnow).Err? <==>
      AnyCodeIn(Take(today.weatherCode, 17), FreezingCodes) && daily.temperatureMin.None?
  {
  }

  /** The date, label and snowfall features of a row. */
  lemma LiveRowOfTotals(day: Day, today: Hourly, daily: DailyValues, snowDays: seq<string>,
                        yesterdaySnow: seq<Option<real>>)
    requires LiveRowOf(day, today, daily, snowDays, yesterdaySnow).Ok?
    ensures var row := LiveRowOf(day, today, daily, snowDays, yesterdaySnow).value;
      && row.date == DateString(day)
      && (row.snowDay == 1 <==> DateString(day) in snowDays)
      && (row.snowDay == 0 <==> DateString(day) !in snowDays)
      && row.snowfallOvernight == SafeSum(Take(today.snowfall, 8))
      && row.snowfall24h == SafeSum(today.snowfall)
      && (|yesterdaySnow| == 0 ==> row.snowfallLast24h == 0.0 && row.snowfallLast12h == 0.0)
      && (|yesterdaySnow| > 0 ==>
            row.snowfallLast24h == SafeSum(Drop(yesterdaySnow, 7)) + row.snowfallOvernight
            && row.snowfallLast12h == SafeSum(Drop(yesterdaySnow, 20)) + row.snowfallOvernight)
      && row.noSnowfallPenalty in {0, 1, 2}
      && (row.noSnowfallPenalty == 2 <==> row.snowfall24h == 0.0)
      && (row.noSnowfallPenalty == 1 <==> row.snowfall24h != 0.0 && row.snowfallOvernight < 1.0)
  {
  }

  /** The freezing-rain flag of a row: a drizzle or rain code among the first 17 hours and a
      daily minimum between -2 and 1. */
  lemma LiveRowOfFreezing(day: Day, today: Hourly, daily: DailyValues, snowDays: seq<string>,
                          yesterdaySnow: seq<Option<real>>)
    requires LiveRowOf(day, today, daily, snowDays, yesterdaySnow).Ok?
    ensures var row := LiveRowOf(day, today, daily, snowDays, yesterdaySnow).value;
      row.freezingRain <==>
        (exists i :: 0 <= i < 17 && i < |today.weatherCode| && today.weatherCode[i].Some?
                     && today.weatherCode[i].value in FreezingCodes)
        && -2.0 <= daily.temperatureMin.value <= 1.0
  {
    var codes := Take(today.weatherCode, 17);
    if AnyCodeIn(codes, FreezingCodes) {
      var i :| 0 <= i < |codes| && codes[i].Some? && codes[i].value in FreezingCodes;
      assert codes[i] == today.weatherCode[i];
    }
    if exists i :: 0 <= i < 17 && i < |today.weatherCode| && today.weatherCode[i].Some?
                   && today.weatherCode[i].value in FreezingCodes {
      var i :| 0 <= i < 17 && i < |today.weatherCode| && today.weatherCode[i].Some?
               && today.weatherCode[i].value in FreezingCodes;
      assert codes[i] == today.weatherCode[i];
    }
  }

  /** The per-hour features of a row: the first eight values of each series, 0 past its
      end, and one snow-code flag for the whole day repeated in every hour. */
  lemma LiveRowOfHours(day: Day, today: Hourly, daily: DailyValues, snowDays: seq<string>,
                       yesterdaySnow: seq<Option<real>>)
    requires LiveRowOf(day, today, daily, snowDays, yesterdaySnow).Ok?
    ensures var row := LiveRowOf(day, today, daily, snowDays, yesterdaySnow).value;
      && |row.temperature| == 8 && |row.precipitation| == 8 && |row.snowfall| == 8
      && |row.windSpeed| == 8 && |row.windGusts| == 8 && |row.weatherCode| == 8
      && (forall h :: 0 <= h < 8 ==>
            && row.temperature[h] == (if h < |today.temperature| then today.temperature[h] else Some(0.0))
            && row.snowfall[h] == (if h < |today.snowfall| then today.snowfall[h] else Some(0.0))
            && row.precipitation[h] == (if h < |today.precipitation| then today.precipitation[h] else Some(0.0))
            && row.windSpeed[h] == (if h < |today.windSpeed| then today.windSpeed[h] else Some(0.0))
            && row.windGusts[h] == (if h < |today.windGusts| then today.windGusts[h] else Some(0.0))
            && (row.weatherCode[h] <==> AnyCodeIn(today.weatherCode, SnowCodes)))
  {
  }

  /** The `for h in range(8)` loop of the row builder. */
  method FillHours(today: Hourly)
    returns (temperature: seq<Option<real>>, precipitation: seq<Option<real>>,
             snowfall: seq<Option<real>>, windSpeed: seq<Option<real>>,
             windGusts: seq<Option<real>>, weatherCode: seq<bool>)
    ensures temperature == HourFields(today.temperature)
    ensures precipitation == HourFields(today.precipitation)
    ensures snowfall == HourFields(today.snowfall)
    ensures windSpeed == HourFields(today.windSpeed)
    ensures windGusts == HourFields(today.windGusts)
    ensures weatherCode == SnowFlags(today.weatherCode)
  {
    temperature, precipitation, snowfall, windSpeed, windGusts, weatherCode := [], [], [], [], [], [];
    for h := 0 to 8
      invariant temperature == HourFields(today.temperature)[..h]
      invariant precipitation == HourFields(today.precipitation)[..h]
      invariant snowfall == HourFields(today.snowfall)[..h]
      invariant windSpeed == HourFields(today.windSpeed)[..h]
      invariant windGusts == HourFields(today.windGusts)[..h]
      invariant weatherCode == SnowFlags(today.weatherCode)[..h]
    {
      temperature := temperature + [HourAt(today.temperature, h)];
      precipitation := precipitation + [HourAt(today.precipitation, h)];
      snowfall := snowfall + [HourAt(today.snowfall, h)];
      windSpeed := windSpeed + [HourAt(today.windSpeed, h)];
      windGusts := windGusts + [HourAt(today.windGusts, h)];
      weatherCode := weatherCode + [AnyCodeIn(today.weatherCode, SnowCodes)];
    }
  }

  /** Builds the row of one weekday: the aggregates, then the per-hour fields. */
  method BuildRow(day: Day, today: Hourly, daily: DailyValues, snowDays: seq<string>,
                  yesterdaySnow: seq<Option<real>>) returns (r: Result<LiveRow>)
    ensures r == LiveRowOf(day, today, daily, snowDays, yesterdaySnow)
  {
    var dateStr := DateString(day);
    var overnight := SafeSum(Take(today.snowfall, 8));
    var total := SafeSum(today.snowfall);
    var freezing := FreezingRain(today.weatherCode, daily.temperatureMin);
    if freezing.Err? {
      return Err(freezing.error);
    }
    var temperature, precipitation, snowfall, windSpeed, windGusts, weatherCode := FillHours(today);
    r := Ok(LiveRow(
      date := dateStr,
      snowDay := SnowDayLabel(dateStr, snowDays),
      snowfallLast24h := SnowfallSince(yesterdaySnow, 7, overnight),
      snowfallLast12h := SnowfallSince(yesterdaySnow, 20, overnight),
      snowfallOvernight := overnight,
      snowfall24h := total,
      precipitationOvernight := SafeSum(Take(today.precipitation, 8)),
      precipitation24h := SafeSum(today.precipitation),
      noSnowfallPenalty := NoSnowfallPenalty(total, overnight),
      freezingRain := freezing.value,
      tempMinOvernight := daily.temperatureMin,
      windSpeedAvgOvernight := SafeMean(Take(today.windSpeed, 8)),
      windGustsMaxOvernight := daily.windGustsMax,
      dewpointAvgOvernight := SafeMean(Take(today.dewPoint, 8)),
      temperature := temperature,
      precipitation := precipitation,
      snowfall := snowfall,
      windSpeed := windSpeed,
      windGusts := windGusts,
      weatherCode := weatherCode));
  }

  // ---------------------------------------------------------------- the row loop

  /** What one iteration of the loop does with a day: skip it (a weekend) or emit its row,
      and in both cases carry the day's hourly snowfall into the next iteration. */
  datatype Visit = Skip(snow: seq<Option<real>>) | Emit(row: LiveRow, snow: seq<Option<real>>)

  /** One iteration of the loop on day `current`, with `yesterdaySnow` the snowfall series
      carried from the day before. Both slices are looked up before the weekend test, so
      their errors happen on weekends too; a weekend without an hourly slice fails when its
      snowfall is read. */
  function VisitDay(h: Hourly, dl: Daily, snowDays: seq<string>, current: Day,
                    yesterdaySnow: seq<Option<real>>): Result<Visit>
  {
    var dateStr := DateString(current);
    var todayHourly := HourlyForDate(h, dateStr);
    var todayDaily := DailyForDate(dl, dateStr);
    if todayHourly.Err? then Err(todayHourly.error)
    else if todayDaily.Err? then Err(todayDaily.error)
    else if !IsWeekday(current) then
      if todayHourly.value.None? then Err(TypeError)
      else Ok(Skip(todayHourly.value.value.snowfall))
    else if todayHourly.value.None? || todayDaily.value.None? then Err(TypeError)
    else
      var today := todayHourly.value.value;
      match LiveRowOf(current, today, todayDaily.value.value, snowDays, yesterdaySnow)
      case Err(e) => Err(e)
      case Ok(row) => Ok(Emit(row, today.snowfall))
  }

  /** The rows the loop produces from day `current` to `end`, with `yesterdaySnow` the
      snowfall series of the day before `current` (empty before the first day). */
  function RowsFrom(h: Hourly, dl: Daily, snowDays: seq<string>, current: Day, end: Day,
                    yesterdaySnow: seq<Option<real>>): Result<seq<LiveRow>>
    decreases if current <= end then end - current + 1 else 0
  {
    if current > end then Ok([])
    else match VisitDay(h, dl, snowDays, current, yesterdaySnow)
      case Err(e) => Err(e)
      case Ok(Skip(snow)) => RowsFrom(h, dl, snowDays, current + 1, end, snow)
      case Ok(Emit(row, snow)) => Prepend(row, RowsFrom(h, dl, snowDays, current + 1, end, snow))
  }

  /** The body of the loop, in the order the source runs it. */
  method ProcessDay(hourly: Hourly, daily: Daily, snowDays: seq<string>, current: Day,
                    yesterdaySnow: seq<Option<real>>) returns (visit: Result<Visit>)
    ensures visit == VisitDay(hourly, daily, snowDays, current, yesterdaySnow)
  {
    var dateStr := DateString(current);
    var todayHourly := HourlyForDate(hourly, dateStr);
    if todayHourly.Err? {
      return Err(todayHourly.error);
    }
    var todayDaily := DailyForDate(daily, dateStr);
    if todayDaily.Err? {
      return Err(todayDaily.error);
    }
    if !IsWeekday(current) {
      if todayHourly.value.None? {
        return Err(TypeError);
      }
      return Ok(Skip(todayHourly.value.value.snowfall));
    }
    if todayHourly.value.None? || todayDaily.value.None? {
      return Err(TypeError);
    }
    var row := BuildRow(current, todayHourly.value.value, todayDaily.value.value, snowDays, yesterdaySnow);
    if row.Err? {
      return Err(row.error);
    }
    visit := Ok(Emit(row.value, todayHourly.value.value.snowfall));
  }

  /** The `while current <= end_dt` loop of `get_data_within_timerange`. */
  method CollectRows(hourly: Hourly, daily: Daily, snowDays: seq<string>, start: Day, last: Day)
    returns (r: Result<seq<LiveRow>>)
    ensures r == RowsFrom(hourly, daily, snowDays, start, last, [])
  {
    var rows: seq<LiveRow> := [];
    var current := start;
    var yesterdaySnow: seq<Option<real>> := [];
    ghost var target := RowsFrom(hourly, daily, snowDays, start, last, []);
    ChainNil(target);
    while current <= last
      invariant Chain(rows, RowsFrom(hourly, daily, snowDays, current, last, yesterdaySnow)) == target
      decreases last - current
    {
      var visit := ProcessDay(hourly, daily, snowDays, current, yesterdaySnow);
      match visit {
        case Err(e) =>
          return Err(e);
        case Ok(Skip(snow)) =>
          yesterdaySnow := snow;
        case Ok(Emit(row, snow)) =>
          ChainPrepend(rows, row, RowsFrom(hourly, daily, snowDays, current + 1, last, snow));
          rows := rows + [row];
          yesterdaySnow := snow;
      }
      current := current + 1;
    }
    assert rows + [] == rows;
    r := Ok(rows);
  }

  /** The last day the loop visits: for archive requests, no later than yesterday. The
      source compares a midnight with "now minus one day"; with `today` the current date
      that clamps exactly the end days after `today - 1`. */
  function RangeEnd(end: Day, useForecast: bool, today: Day): (last: Day)
    ensures useForecast ==> last == end
    ensures !useForecast ==> last <= today - 1 && last <= end
    ensures !useForecast && end <= today - 1 ==> last == end
    ensures !useForecast && end > today - 1 ==> last == today - 1
  {
    if !useForecast && end > today - 1 then today - 1 else end
  }

  /** The whole of `get_data_within_timerange`: one request, then the row loop. */
  function TimerangeRows(fetch: Request -> Response, snowDays: seq<string>, start: Day, end: Day,
                         lat: real, lon: real, useForecast: bool, today: Day): Result<seq<LiveRow>>
  {
    var last := RangeEnd(end, useForecast, today);
    var data := fetch(Request(DateString(start), DateString(last), lat, lon, useForecast));
    if data.hourly.None? || data.daily.None? then Err(KeyError)
    else RowsFrom(data.hourly.value, data.daily.value, snowDays, start, last, [])
  }

  /** `get_data_within_timerange`, with the provider call `fetch`, the reference dates
      `snowDays` and the current date `today` passed in. */
  method GetDataWithinTimerange(fetch: Request -> Response, snowDays: seq<string>, start: Day,
                                end: Day, lat: real, lon: real, useForecast: bool, today: Day)
    returns (r: Result<seq<LiveRow>>)
    ensures r == TimerangeRows(fetch, snowDays, start, end, lat, lon, useForecast, today)
  {
    var last := end;
    if !useForecast && last > today - 1 {
      last := today - 1;
    }
    var data := fetch(Request(DateString(start), DateString(last), lat, lon, useForecast));
    if data.hourly.None? || data.daily.None? {
      return Err(KeyError);
    }
    r := CollectRows(data.hourly.value, data.daily.value, snowDays, start, last);
  }

  // ---------------------------------------------------------------- what the loop produces

  /** The snowfall series the loop carries into day `d`: `initial` on the first day, and the
      hourly snowfall slice of the day before on every later day, weekend or not. */
  function PreviousSnow(h: Hourly, first: Day, initial: seq<Option<real>>, d: Day): seq<Option<real>>
  {
    if d <= first then initial
    else match HourlyForDate(h, DateString(d - 1))
      case Ok(Some(s)) => s.snowfall
      case _ => []
  }

  /** `row` is the row of weekday `d`: both slices of `d` exist, the day before `d` had an
      hourly slice when `d` is not the first day, and the row is built from them. */
  predicate RowOfDay(row: LiveRow, h: Hourly, dl: Daily, snowDays: seq<string>, first: Day,
                     initial: seq<Option<real>>, d: Day)
  {
    var th := HourlyForDate(h, DateString(d));
    var td := DailyForDate(dl, DateString(d));
    && th.Ok? && th.value.Some? && td.Ok? && td.value.Some?
    && (d > first ==> HourlyForDate(h, DateString(d - 1)).Ok? && HourlyForDate(h, DateString(d - 1)).value.Some?)
    && LiveRowOf(d, th.value.value, td.value.value, snowDays, PreviousSnow(h, first, initial, d)) == Ok(row)
  }

  lemma RowOfDayShift(row: LiveRow, h: Hourly, dl: Daily, snowDays: seq<string>, current: Day,
                      carry: seq<Option<real>>, d: Day)
    requires HourlyForDate(h, DateString(current)).Ok? && HourlyForDate(h, DateString(current)).value.Some?
    requires d >= current + 1
    requires RowOfDay(row, h, dl, snowDays, current + 1, HourlyForDate(h, DateString(current)).value.value.snowfall, d)
    ensures RowOfDay(row, h, dl, snowDays, current, carry, d)
  {
    assert PreviousSnow(h, current + 1, HourlyForDate(h, DateString(current)).value.value.snowfall, d)
        == PreviousSnow(h, current, carry, d);
  }

  lemma ShiftAll(rows: seq<LiveRow>, days: seq<Day>, h: Hourly, dl: Daily, snowDays: seq<string>,
                 current: Day, carry: seq<Option<real>>)
    requires HourlyForDate(h, DateString(current)).Ok? && HourlyForDate(h, DateString(current)).value.Some?
    requires |rows| == |days|
    requires forall k :: 0 <= k < |rows| ==> days[k] >= current + 1
    requires forall k :: 0 <= k < |rows| ==>
      RowOfDay(rows[k], h, dl, snowDays, current + 1, HourlyForDate(h, DateString(current)).value.value.snowfall, days[k])
    ensures forall k :: 0 <= k < |rows| ==> RowOfDay(rows[k], h, dl, snowDays, current, carry, days[k])
  {
    forall k | 0 <= k < |rows| ensures RowOfDay(rows[k], h, dl, snowDays, current, carry, days[k]) {
      RowOfDayShift(rows[k], h, dl, snowDays, current, carry, days[k]);
    }
  }

  /** A visit that succeeds has found the day's hourly slice and carries its snowfall
      forward; it skips exactly the weekend days and otherwise emits the row of the day. */
  lemma VisitDayRow(h: Hourly, dl: Daily, snowDays: seq<string>, current: Day, carry: seq<Option<real>>)
    requires VisitDay(h, dl, snowDays, current, carry).Ok?
    ensures HourlyForDate(h, DateString(current)).Ok? && HourlyForDate(h, DateString(current)).value.Some?
    ensures VisitDay(h, dl, snowDays, current, carry).value.snow
         == HourlyForDate(h, DateString(current)).value.value.snowfall
    ensures VisitDay(h, dl, snowDays, current, carry).value.Skip? <==> !IsWeekday(current)
    ensures VisitDay(h, dl, snowDays, current, carry).value.Emit? ==>
      RowOfDay(VisitDay(h, dl, snowDays, current, carry).value.row, h, dl, snowDays, current, carry, current)
  {
  }

  /** A successful loop yields exactly one row per weekday of the range, in ascending date
      order, each built from its own day's slices and from the snowfall of the calendar day
      before it (so a Monday carries Sunday's), the first day carrying `carry`. */
  lemma {:induction false} RowsFromSpec(h: Hourly, dl: Daily, snowDays: seq<string>, current: Day,
                                        end: Day, carry: seq<Option<real>>)
    requires RowsFrom(h, dl, snowDays, current, end, carry).Ok?
    ensures |RowsFrom(h, dl, snowDays, current, end, carry).value| == |WeekdaysIn(current, end)|
    ensures forall k :: 0 <= k < |WeekdaysIn(current, end)| ==>
      RowOfDay(RowsFrom(h, dl, snowDays, current, end, carry).value[k], h, dl, snowDays, current, carry,
               WeekdaysIn(current, end)[k])
    decreases if current <= end then end - current + 1 else 0
  {
    if current <= end {
      VisitDayRow(h, dl, snowDays, current, carry);
      var visit := VisitDay(h, dl, snowDays, current, carry).value;
      RowsFromSpec(h, dl, snowDays, current + 1, end, visit.snow);
      var rows := RowsFrom(h, dl, snowDays, current, end, carry).value;
      var rest := RowsFrom(h, dl, snowDays, current + 1, end, visit.snow).value;
      var days := WeekdaysIn(current, end);
      var later := WeekdaysIn(current + 1, end);
      WeekdaysInSpec(current + 1, end);
      ShiftAll(rest, later, h, dl, snowDays, current, carry);
      if visit.Skip? {
        assert rows == rest && days == later;
      } else {
        assert rows == [visit.row] + rest;
        assert days == [current] + later;
        var P := (row, d) => RowOfDay(row, h, dl, snowDays, current, carry, d);
        ConsPointwise(P, visit.row, rest, current, later);
      }
    }
  }

  /** The rows of a successful loop are dated by the weekdays of the range, in order. */
  lemma RowsFromDates(h: Hourly, dl: Daily, snowDays: seq<string>, current: Day, end: Day,
                      carry: seq<Option<real>>)
    requires RowsFrom(h, dl, snowDays, current, end, carry).Ok?
    ensures var rows := RowsFrom(h, dl, snowDays, current, end, carry).value;
      var days := WeekdaysIn(current, end);
      |rows| == |days| && forall k :: 0 <= k < |rows| ==> rows[k].date == DateString(days[k])
  {
    RowsFromSpec(h, dl, snowDays, current, end, carry);
    var rows := RowsFrom(h, dl, snowDays, current, end, carry).value;
    var days := WeekdaysIn(current, end);
    forall k | 0 <= k < |rows| ensures rows[k].date == DateString(days[k]) {
      assert RowOfDay(rows[k], h, dl, snowDays, current, carry, days[k]);
      var th := HourlyForDate(h, DateString(days[k]));
      var td := DailyForDate(dl, DateString(days[k]));
      LiveRowOfTotals(days[k], th.value.value, td.value.value, snowDays, PreviousSnow(h, current, carry, days[k]));
    }
  }

  // ---------------------------------------------------------------- this week's rows

  /** `(0, 0)` stands for "no location given" and is replaced by the default location. */
  function ResolveLocation(lat: real, lon: real): (loc: (real, real))
    ensures lat == 0.0 && lon == 0.0 ==> loc == (DefaultLatitude, DefaultLongitude)
    ensures !(lat == 0.0 && lon == 0.0) ==> loc == (lat, lon)
  {
    if lat == 0.0 && lon == 0.0 then (DefaultLatitude, DefaultLongitude) else (lat, lon)
  }

  /** The first day shown: today before 7 am local time, tomorrow from 7 am on. */
  function WeekStart(today: Day, hour: int): Day
  {
    if hour < 7 then today else today + 1
  }

  /** The `while len(dates) < 5` loop of `get_this_weeks_data`. */
  method ThisWeeksDates(today: Day, hour: int) returns (dates: seq<Day>)
    ensures dates == FirstWeekdays(WeekStart(today, hour), 5)
  {
    var start := WeekStart(today, hour);
    dates := [];
    var current := start;
    while |dates| < 5
      invariant |dates| <= 5
      invariant dates + FirstWeekdays(current, 5 - |dates|) == FirstWeekdays(start, 5)
      decreases 5 - |dates|, if IsWeekday(current) then 0 else 7 - Weekday(current)
    {
      WeekdayNext(current);
      if IsWeekday(current) {
        assert FirstWeekdays(current, 5 - |dates|) == [current] + FirstWeekdays(current + 1, 5 - |dates| - 1);
        dates := dates + [current];
      }
      current := current + 1;
    }
    assert dates + [] == dates;
  }

  /** The days shown are the next five weekdays from `WeekStart`, with none skipped:
      every weekday between the first and the last of them is one of them. A weekday
      morning before 7 am starts with today. */
  lemma ThisWeekSpec(today: Day, hour: int)
    ensures var start := WeekStart(today, hour);
      var dates := FirstWeekdays(start, 5);
      && dates == WeekdaysIn(start, dates[4])
      && dates == WeekdaysIn(dates[0], dates[4])
      && (forall k :: 0 <= k < 5 ==> IsWeekday(dates[k]) && start <= dates[k])
      && (forall k, l :: 0 <= k < l < 5 ==> dates[k] < dates[l])
      && (hour < 7 && IsWeekday(today) ==> dates[0] == today)
      && (hour >= 7 && IsWeekday(today + 1) ==> dates[0] == today + 1)
  {
    var start := WeekStart(today, hour);
    FirstWeekdaysSpec(start, 5);
    WeekdaysInSpec(start, FirstWeekdays(start, 5)[4]);
  }

  /** `df[df["date"].isin(dates)]` */
  function KeepListed(rows: seq<LiveRow>, dates: seq<string>): (kept: seq<LiveRow>)
    ensures forall k :: 0 <= k < |kept| ==> kept[k] in rows && kept[k].date in dates
  {
    if |rows| == 0 then []
    else (if rows[0].date in dates then [rows[0]] else []) + KeepListed(rows[1..], dates)
  }

  lemma {:induction false} KeepListedAll(rows: seq<LiveRow>, dates: seq<string>)
    requires forall k :: 0 <= k < |rows| ==> rows[k].date in dates
    ensures KeepListed(rows, dates) == rows
  {
    if |rows| > 0 {
      KeepListedAll(rows[1..], dates);
    }
  }

  function DateStrings(days: seq<Day>): (ss: seq<string>)
    ensures |ss| == |days| && forall k :: 0 <= k < |days| ==> ss[k] == DateString(days[k])
  {
    seq(|days|, k requires 0 <= k < |days| => DateString(days[k]))
  }

  /** A successful `get_data_within_timerange` has one row per weekday of the (clamped)
      range, dated in order. */
  lemma TimerangeRowsDates(fetch: Request -> Response, snowDays: seq<string>, start: Day, end: Day,
                           lat: real, lon: real, useForecast: bool, today: Day)
    requires TimerangeRows(fetch, snowDays, start, end, lat, lon, useForecast, today).Ok?
    ensures var rows := TimerangeRows(fetch, snowDays, start, end, lat, lon, useForecast, today).value;
      var days := WeekdaysIn(start, RangeEnd(end, useForecast, today));
      |rows| == |days| && forall k :: 0 <= k < |rows| ==> rows[k].date == DateString(days[k])
  {
    var last := RangeEnd(end, useForecast, today);
    var data := fetch(Request(DateString(start), DateString(last), lat, lon, useForecast));
    RowsFromDates(data.hourly.value, data.daily.value, snowDays, start, last, []);
  }

  /** `get_this_weeks_data`: the five weekdays from `WeekStart`, fetched as one forecast
      range at the resolved location. The final date filter keeps every row. */
  method GetThisWeeksData(fetch: Request -> Response, snowDays: seq<string>, lat: real, lon: real,
                          today: Day, hour: int) returns (r: Result<seq<LiveRow>>)
    ensures var days := FirstWeekdays(WeekStart(today, hour), 5);
      var loc := ResolveLocation(lat, lon);
      r == TimerangeRows(fetch, snowDays, days[0], days[4], loc.0, loc.1, true, today)
    ensures r.Ok? ==> |r.value| == 5 && forall k :: 0 <= k < 5 ==>
      r.value[k].date == DateString(FirstWeekdays(WeekStart(today, hour), 5)[k])
  {
    var loc := ResolveLocation(lat, lon);
    var dates := ThisWeeksDates(today, hour);
    ThisWeekSpec(today, hour);
    var data := GetDataWithinTimerange(fetch, snowDays, dates[0], dates[4], loc.0, loc.1, true, today);
    if data.Err? {
      return data;
    }
    TimerangeRowsDates(fetch, snowDays, dates[0], dates[4], loc.0, loc.1, true, today);
    var listed := DateStrings(dates);
    forall k | 0 <= k < |data.value| ensures data.value[k].date in listed {
      assert listed[k] == DateString(dates[k]);
    }
    KeepListedAll(data.value, listed);
    r := Ok(KeepListed(data.value, listed));
  }

  /** Rows dated by the weekdays of a working week are dated Monday to Friday. */
  lemma DatedWorkWeek(rows: seq<LiveRow>, rg: Range)
    requires IsWorkWeek(rg)
    requires |rows| == |WeekdaysIn(rg.first, rg.last)|
    requires forall k :: 0 <= k < |rows| ==> rows[k].date == DateString(WeekdaysIn(rg.first, rg.last)[k])
    ensures |rows| == 5 && forall k :: 0 <= k < 5 ==> rows[k].date == DateString(rg.first + k)
  {
    WorkWeekDays(rg);
    var days := WeekdaysIn(rg.first, rg.last);
    forall k | 0 <= k < 5 ensures rows[k].date == DateString(rg.first + k) {
      assert days[k] == rg.first + k;
    }
  }

  /** A working week fetched from the forecast comes back, when it comes back at all, as
      five rows dated Monday to Friday. */
  lemma WorkWeekDates(fetch: Request -> Response, snowDays: seq<string>, rg: Range,
                      lat: real, lon: real, today: Day)
    requires IsWorkWeek(rg)
    requires TimerangeRows(fetch, snowDays, rg.first, rg.last, lat, lon, true, today).Ok?
    ensures var rows := TimerangeRows(fetch, snowDays, rg.first, rg.last, lat, lon, true, today).value;
      |rows| == 5 && forall k :: 0 <= k < 5 ==> rows[k].date == DateString(rg.first + k)
  {
    TimerangeRowsDates(fetch, snowDays, rg.first, rg.last, lat, lon, true, today);
    DatedWorkWeek(TimerangeRows(fetch, snowDays, rg.first, rg.last, lat, lon, true, today).value, rg);
  }

  /** This week fetched from the forecast at the default location: five rows, Monday to
      Friday. */
  lemma ThisWeekDates(fetch: Request -> Response, snowDays: seq<string>, today: Day)
    requires TimerangeRows(fetch, snowDays, ThisWeek(today).first, ThisWeek(today).last,
                           DefaultLatitude, DefaultLongitude, true, today).Ok?
    ensures var rows := TimerangeRows(fetch, snowDays, ThisWeek(today).first, ThisWeek(today).last,
                                      DefaultLatitude, DefaultLongitude, true, today).value;
      |rows| == 5 && forall k :: 0 <= k < 5 ==> rows[k].date == DateString(ThisWeek(today).first + k)
  {
    ThisWeekIsWorkWeek(today);
    WorkWeekDates(fetch, snowDays, ThisWeek(today), DefaultLatitude, DefaultLongitude, today);
  }

  /** `t()`: Monday to Friday of the current calendar week at the default location, from
      the forecast. */
  method CalendarWeekData(fetch: Request -> Response, snowDays: seq<string>, today: Day)
    returns (r: Result<seq<LiveRow>>)
    ensures r == TimerangeRows(fetch, snowDays, ThisWeek(today).first, ThisWeek(today).last,
                               DefaultLatitude, DefaultLongitude, true, today)
    ensures r.Ok? ==> |r.value| == 5 && forall k :: 0 <= k < 5 ==>
      r.value[k].date == DateString(ThisWeek(today).first + k)
  {
    var rg := ThisWeek(today);
    r := GetDataWithinTimerange(fetch, snowDays, rg.first, rg.last, DefaultLatitude, DefaultLongitude, true, today);
    if r.Ok? {
      ThisWeekDates(fetch, snowDays, today);
    }
  }

  // ---------------------------------------------------------------- weather code labels

  const WeatherCodeLabels: map<int, string> := map[
    66 := "Freezing Rain (Light)",
    67 := "Freezing Rain (Heavy)",
    71 := "Snowfall (Light)",
    73 := "Snowfall (Moderate)",
    75 := "Snowfall (Heavy)",
    77 := "Snow Grains",
    85 := "Snow Showers (Light)",
    86 := "Snow Showers (Heavy)"]

  /** `get_weather_code_label`: the label of a freezing-rain or snow code, "Other" otherwise. */
  function WeatherCodeLabel(code: int): string
  {
    if code in WeatherCodeLabels then WeatherCodeLabels[code] else "Other"
  }

  /** Every snow code, and both freezing-rain codes, have a label of their own; any other
      code is "Other". */
  lemma WeatherCodeLabelSpec(code: int)
    ensures code in SnowCodes ==> WeatherCodeLabel(code) != "Other" && Contains(WeatherCodeLabel(code), "Snow")
    ensures code in {66, 67} ==> StartsWith(WeatherCodeLabel(code), "Freezing Rain")
    ensures code !in SnowCodes && code !in {66, 67} ==> WeatherCodeLabel(code) == "Other"
  {
    if code in SnowCodes {
      assert OccursAt(WeatherCodeLabel(code), "Snow", 0);
    }
  }
}
