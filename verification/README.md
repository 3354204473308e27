# Snow-day predictor: a verified model of its core

The snow-day predictor estimates the chance that school is cancelled for snow. It turns
hourly and daily weather series into one feature row per weekday and explains a trained
classifier's per-feature attributions in words. It matches the day's official weather
alerts to the user's location, and a small web service counts visits and names the days it
shows. This project models the deterministic core of that pipeline in Dafny and proves
properties of it:

- **Feature builders.** There are four generations of the weekday loop that builds feature
  rows, and each is modelled on its own:
  - the live one in `api/weather_fetcher.py` (modules `LiveFetcher`, `Series`, `Features`);
  - the two older ones, `app/weather_fetcher.py` (`AppFetcher`) and `weather_fetcher.py`
    (`LegacyFetcher`), with their week-range helpers (`WeekRanges`);
  - the training script `training_data_fetcher.py` (`TrainingFetcher`).

  Each loop is a `method` proved equal to a recursive specification function. Lemmas about
  that function state what the rows are: one per weekday of the range, in ascending date
  order, with every feature tied to the hourly series.
- **Explanation engine** (`api/explainer.py`, module `Explainer`). It works from attribution
  values that are already known. It drops `weather_code*` features, splits the rest into
  snow/precipitation, wind and other groups, and keeps the strongest member of each group.
  The direction comes from the sign. Values are humanized through the ascending threshold
  tables of `FEATURE_BUCKETS`.
- **Alert post-processing** (`api/alert_fetcher.py`, module `Alerts`):
  - directory-listing filters;
  - `en-CA` info blocks, canonical event names, area names and `(lon, lat)` vertices;
  - the matching loop that reports each alert at most once.
- **Service logic** (`api/main.py`, module `Service`):
  - the visit counter, as a class whose fields are updated in place;
  - `describe_day`;
  - the filtering of the `/explain` route.

Shared pieces:

- `Common`: Python exceptions become `Result` values carrying the exception kind.
- `Text`: `str` operations on `seq<char>`.
- `Calendar`: days are integers counted from 1970-01-01, with proleptic Gregorian date text.

The network, the clock, the model library and the geometry library are parameters of the
modelled operations:

- the provider's answers: the live builder's single request is the call `fetch`; the other
  three builders ask once per weekday, and their answers are a map `responses` from each
  request to the `hourly` block it returns (a request without an entry returns none);
- the directory `listing` and the parsed CAP `document`;
- the current `today` and `hour`;
- the containment predicate `inside`;
- the reference snow-day dates `snowDays`.

## Model

| member | source | states |
|---|---|---|
| Calendar.Weekday | api/weather_fetcher.py:19-20 | the weekday number is always in 0..6 (Monday 0) |
| Calendar.WeekdaysInSpec | api/weather_fetcher.py:128-138 | the weekdays a skipping loop visits are exactly the Monday-to-Friday days of the range, each once, strictly ascending |
| Calendar.FirstWeekdays | api/weather_fetcher.py:247-253 | the "next weekdays" list has exactly the requested length |
| Calendar.FirstWeekdaysSpec | api/weather_fetcher.py:247-253 | the first n weekdays from a start skip no weekday: they are all weekdays from the start to the last one collected |
| Calendar.DaysBeforeNext | training_data_fetcher.py:55 | the day numbers of consecutive New Year's days differ by the length of the year, 366 in a Gregorian leap year and 365 otherwise |
| Calendar.CivilFromYear | training_data_fetcher.py:55 | the date of a day on or after January 1 of a year from 1970 on is found by counting from that New Year's day |
| Series.PresentSpec | api/weather_fetcher.py:23 | the None-skipping comprehension keeps exactly the present values |
| Series.SafeMean | api/weather_fetcher.py:26-28 | `safe_mean` is 0 with no present value, otherwise a value whose product with the count of present values is their sum |
| Series.SafeMinSpec | api/weather_fetcher.py:22-24 | `safe_min` is 0 with no present value, otherwise a present value no present value is below |
| Series.SafeSumIsZeroFilledSum | api/weather_fetcher.py:30-32 | skipping None and counting None as 0 give the same total |
| Series.SafeSumAppend | api/weather_fetcher.py:30-32 | totals of adjacent pieces add up, and a missing value adds nothing |
| Series.SafeMeanBounds | api/weather_fetcher.py:26-28 | the mean of present values lies between any bounds on them |
| Series.PlainSum | weather_fetcher.py:72 | Python `sum` succeeds exactly when no value is missing, fails with `TypeError` otherwise, and then equals the None-skipping sum |
| Series.PlainMin | weather_fetcher.py:78 | Python `min`: `ValueError` when empty, the single element itself when one, otherwise the minimum when nothing is missing and `TypeError` when something is |
| Features.SnowDayLabel | api/weather_fetcher.py:161 | `snow_day` is 1 exactly when the date text equals a reference date, 0 exactly when it does not |
| Features.NoSnowfallPenalty | api/weather_fetcher.py:171-175 | the penalty is in {0,1,2}: 2 iff no snowfall in 24 h, 1 iff some but under 1 overnight, 0 otherwise |
| Features.PenaltyMonotone | app/weather_fetcher.py:93-97 | with non-negative snowfall, more snow never raises the penalty |
| LiveFetcher.MatchingSpec | api/weather_fetcher.py:62-64 | the date mask selects every index whose timestamp falls on the date and nothing else, ascending |
| LiveFetcher.HourlyForDateSpec | api/weather_fetcher.py:60-73 | `get_hourly_for_date` is None iff no timestamp falls on the date; otherwise every column is cut to the matching indices in order, or `IndexError` when a column is too short |
| LiveFetcher.FirstIndex | api/weather_fetcher.py:85 | `index(True)` is the first matching index, or nothing when none matches |
| LiveFetcher.DailyForDateSpec | api/weather_fetcher.py:75-88 | `get_daily_for_date` is None iff no day matches; otherwise the values at the first matching day |
| LiveFetcher.FreezingRain | api/weather_fetcher.py:177-180 | true iff a drizzle/rain/freezing-rain code is among the first 17 codes and the daily minimum is in [-2, 1]; `TypeError` exactly when such a code meets a missing minimum |
| LiveFetcher.LiveRowOfError | api/weather_fetcher.py:177-180 | a row is built unless the freezing-rain test compares a missing minimum |
| LiveFetcher.LiveRowOfTotals | api/weather_fetcher.py:153-175 | the date, the label, the overnight and 24 h totals, the last-24h/12h snowfall from yesterday's series (0 without one), and the penalty's three cases |
| LiveFetcher.LiveRowOfFreezing | api/weather_fetcher.py:177-180 | the row's `freezing_rain` flag in terms of the hourly codes and the daily minimum |
| LiveFetcher.LiveRowOfHours | api/weather_fetcher.py:189-195 | eight per-hour values per series, each the series value or 0 past its end; every `weather_code` hour holds the same whole-day snow-code flag |
| LiveFetcher.FillHours | api/weather_fetcher.py:189-195 | the per-hour loop produces the per-hour fields |
| LiveFetcher.BuildRow | api/weather_fetcher.py:140-198 | building a row by steps gives the specified row |
| LiveFetcher.ProcessDay | api/weather_fetcher.py:129-146 | one loop iteration: both slices looked up, weekends skipped with the carry updated, otherwise a row emitted |
| LiveFetcher.VisitDayRow | api/weather_fetcher.py:129-146 | a successful visit has found the day's hourly slice and carries its snowfall forward; it skips exactly the weekend days and otherwise emits that day's row |
| LiveFetcher.CollectRows | api/weather_fetcher.py:123-203 | the `while` loop with its snowfall carry produces the specified rows |
| LiveFetcher.RangeEnd | api/weather_fetcher.py:105-109 | forecast requests keep the end; archive requests keep an end before today and are clamped to yesterday otherwise, so they never end later than yesterday |
| LiveFetcher.GetDataWithinTimerange | api/weather_fetcher.py:90-203 | clamp, one request, then the row loop; a response without a block is a `KeyError` |
| LiveFetcher.RowsFromSpec | api/weather_fetcher.py:128-138 | a successful loop has one row per weekday of the range, in order, each built from that day's slices and the previous calendar day's snowfall (Sunday's for a Monday) |
| LiveFetcher.RowsFromDates | api/weather_fetcher.py:160 | the rows are dated by the weekdays of the range, in order |
| LiveFetcher.TimerangeRowsDates | api/weather_fetcher.py:105-203 | a successful request yields one row per weekday of the clamped range |
| LiveFetcher.ResolveLocation | api/weather_fetcher.py:238-239 | (0, 0) is replaced by the default location; any other point is kept |
| LiveFetcher.ThisWeeksDates | api/weather_fetcher.py:245-253 | the `while len(dates) < 5` loop collects the first five weekdays from the start day |
| LiveFetcher.ThisWeekSpec | api/weather_fetcher.py:245-253 | the start is today before 7 am and tomorrow after; the five dates are strictly ascending weekdays with none skipped |
| LiveFetcher.KeepListed | api/weather_fetcher.py:263 | the `isin` filter keeps only rows whose date is listed |
| LiveFetcher.KeepListedAll | api/weather_fetcher.py:263 | when every row's date is listed, the filter keeps all rows |
| LiveFetcher.GetThisWeeksData | api/weather_fetcher.py:237-264 | the week's rows: one forecast request over the five dates, and when it succeeds five rows dated by them in order |
| LiveFetcher.DatedWorkWeek | api/weather_fetcher.py:223-235 | rows dated by the weekdays of a Monday-to-Friday week are dated Monday to Friday |
| LiveFetcher.CalendarWeekData | api/weather_fetcher.py:223-235 | `t()` requests Monday to Friday of this week at the default location and, on success, returns five rows dated Monday to Friday |
| LiveFetcher.WeatherCodeLabelSpec | api/weather_fetcher.py:205-220 | snow codes get a snow label, codes 66 and 67 a freezing-rain label, every other code "Other" |
| AppFetcher.FillHours | app/weather_fetcher.py:115-130 | the per-hour loop gives the first eight values with None as 0, and `IndexError` exactly when a series is shorter than eight |
| AppFetcher.BuildRow | app/weather_fetcher.py:66-130 | building a row by steps gives the specified row |
| AppFetcher.AppRowOfSpec | app/weather_fetcher.py:76-130 | a row fails exactly when the first eight temperatures are all missing or a series is short; otherwise the overnight and 24 h totals with None as 0, the penalty cases, a minimum temperature that is present and below every present one, and the zero-filled per-hour values |
| AppFetcher.ProcessDay | app/weather_fetcher.py:54-132 | one loop iteration: a weekend is skipped; a weekday's request without an `hourly` block is a `ValueError`; otherwise the day's row is built |
| AppFetcher.GetDataWithinTimerange | app/weather_fetcher.py:44-136 | the loop produces the specified rows |
| AppFetcher.AppRowsSpec | app/weather_fetcher.py:53-59 | one row per weekday of the range, in order, each from that day's response |
| AppFetcher.AppRowsError | app/weather_fetcher.py:59-62 | a run fails exactly when some weekday has no hourly block or an unbuildable row |
| AppFetcher.WorkWeekRows | app/weather_fetcher.py:53-56 | a Monday-to-Friday range yields five rows, Monday to Friday |
| AppFetcher.SingleDayRows | app/weather_fetcher.py:53-56 | a one-day range yields nothing on a weekend and that day's row on a weekday |
| AppFetcher.GetLastWeeksData | app/weather_fetcher.py:138-147 | last week's Monday to Friday, five rows in order |
| AppFetcher.GetThisWeeksData | app/weather_fetcher.py:149-158 | this week's Monday to Friday from the forecast; on a weekday today's row is among them |
| AppFetcher.GetNextWeeksData | app/weather_fetcher.py:160-171 | next week's Monday to Friday, seven days after this week's |
| AppFetcher.GetTodaysData | app/weather_fetcher.py:173-176 | today's row, or no rows on a weekend |
| AppFetcher.GetTomorrowsData | app/weather_fetcher.py:178-181 | tomorrow's row, or no rows when tomorrow is a weekend |
| LegacyFetcher.BinaryPenalty | weather_fetcher.py:77 | the penalty is 1 iff the overnight sum is under 0.5, else 0 |
| LegacyFetcher.FillHours | weather_fetcher.py:85-88 | the per-hour loop gives each value or 0, and `IndexError` exactly when a series is shorter than eight |
| LegacyFetcher.BuildRow | weather_fetcher.py:64-88 | building a row by steps gives the specified row |
| LegacyFetcher.LegacyRowOfSpec | weather_fetcher.py:72-88 | a missing value in hours 0..6 of snowfall is a `TypeError`; otherwise the overnight total covers hours 0..6, the 24 h total counts None as 0, the penalty is binary, and the per-hour snowfall is zero-filled |
| LegacyFetcher.OvernightIgnoresHourSeven | weather_fetcher.py:72 | changing hour 7's snowfall never changes the overnight total or the penalty |
| LegacyFetcher.ProcessDay | weather_fetcher.py:52-91 | one loop iteration: a weekend is skipped; a weekday's request without an `hourly` block is a `ValueError`; otherwise the day's row is built |
| LegacyFetcher.GetDataWithinTimerange | weather_fetcher.py:42-95 | the loop produces the specified rows |
| LegacyFetcher.LegacyRowsSpec | weather_fetcher.py:51-57 | one row per weekday of the range, in order, each from that day's response |
| LegacyFetcher.WorkWeekRows | weather_fetcher.py:51-54 | a Monday-to-Friday range yields five rows, Monday to Friday |
| LegacyFetcher.SingleDayRows | weather_fetcher.py:51-54 | a one-day range yields nothing on a weekend and that day's row on a weekday |
| LegacyFetcher.GetLastWeeksData | weather_fetcher.py:98-107 | last week's Monday to Friday, five rows in order |
| LegacyFetcher.GetThisWeeksData | weather_fetcher.py:109-118 | this week's Monday to Friday; on a weekday today's row is among them |
| LegacyFetcher.GetNextWeeksData | weather_fetcher.py:121-132 | next week's Monday to Friday, seven days after this week's |
| LegacyFetcher.GetTodaysData | weather_fetcher.py:134-137 | today's row, or no rows on a weekend |
| WeekRanges.WorkWeekDays | app/weather_fetcher.py:138-171 | the five days of a Monday-to-Friday range are all weekdays |
| WeekRanges.WeekRangesSpec | app/weather_fetcher.py:138-171 | last, this and next week are Monday-to-Friday ranges seven days apart, this week contains today on a weekday, and next week starts after today |
| TrainingFetcher.BuildRow | training_data_fetcher.py:63-73 | the per-hour loop builds the specified row |
| TrainingFetcher.TrainingRowOfSpec | training_data_fetcher.py:63-73 | a row exists iff every series covers eight hours (`IndexError` otherwise) and holds 5 x 8 zero-filled values and the exact-match label |
| TrainingFetcher.ProcessDay | training_data_fetcher.py:51-75 | one loop iteration: a weekend is skipped; a weekday's request without an `hourly` block is a `ValueError`; otherwise the day's row is built |
| TrainingFetcher.CollectRows | training_data_fetcher.py:45-78 | the script's loop produces the specified rows |
| TrainingFetcher.TrainingRowsSpec | training_data_fetcher.py:50-56 | one row per weekday of the range, in order, each from that day's response |
| TrainingFetcher.SundayToFriday | training_data_fetcher.py:50-53 | the weekdays from a Sunday to the Friday after it are the five days Monday to Friday |
| TrainingFetcher.SundayStartRows | training_data_fetcher.py:50-76 | a successful run from a Sunday to the Friday after it has five rows, Monday to Friday, each from that day's response |
| TrainingFetcher.ConfiguredRange | training_data_fetcher.py:6-7 | the configured range is 2025-12-07 to 2025-12-12, and runs from a Sunday to the Friday five days later |
| TrainingFetcher.StartDateCivil | training_data_fetcher.py:6 | the start day number is the date (2025, 12, 7) |
| TrainingFetcher.EndDateCivil | training_data_fetcher.py:7 | the end day number is the date (2025, 12, 12) |
| TrainingFetcher.StartDateText | training_data_fetcher.py:6 | the start day's date text is "2025-12-07" |
| TrainingFetcher.EndDateText | training_data_fetcher.py:7 | the end day's date text is "2025-12-12" |
| TrainingFetcher.Run | training_data_fetcher.py:45-80 | a successful run has five rows, Monday to Friday of the configured week |
| Explainer.FirstBucket | api/explainer.py:92-93 | the first table entry whose threshold is at least the value, or none when the value exceeds them all |
| Explainer.SplitHour | api/explainer.py:87-90 | a trailing digit is split off as the hour; otherwise the name is kept whole |
| Explainer.BucketsAscending | api/explainer.py:98-243 | every bucket table has strictly ascending thresholds |
| Explainer.SnowTables | api/explainer.py:101-143 | the snowfall and snow-depth tables, each with a threshold rising at every step |
| Explainer.PrecipitationTables | api/explainer.py:146-163 | the precipitation tables, each with a threshold rising at every step |
| Explainer.TemperatureTables | api/explainer.py:166-178 | the temperature tables, each with a threshold rising at every step |
| Explainer.WindTables | api/explainer.py:182-209 | the wind speed and gust tables, each with a threshold rising at every step |
| Explainer.OtherTables | api/explainer.py:212-243 | the dew point, freezing rain, weather code and penalty tables, each with a threshold rising at every step |
| Explainer.Buckets | api/explainer.py:92 | the table looked up for a base name rises at every step |
| Explainer.BucketsNamed | api/explainer.py:92 | a base name has a non-empty table exactly when it is one of the nineteen `FEATURE_BUCKETS` keys; any other name gets the empty default |
| Explainer.DescribeSpec | api/explainer.py:92-96 | over any table: no label iff the value exceeds every threshold, otherwise the first bucket at or above it, plus the hour suffix |
| Explainer.AtThreshold | api/explainer.py:93 | a value exactly at a threshold maps to that entry |
| Explainer.BucketMonotone | api/explainer.py:92-93 | a smaller value never lands in a later bucket |
| Explainer.HumanizeSpec | api/explainer.py:80-96 | None iff the base key has no table or the value exceeds every threshold; otherwise the first matching label, with " (H am)" for an hourly feature |
| Explainer.HumanizeHourly | api/explainer.py:94 | an hourly feature gets its hour back as a suffix, hour 0 as "12 am" |
| Explainer.PenaltyLabels | api/explainer.py:238-242 | penalty values at or below 0 read "None" (text, not nothing), up to 1 "No Snowfall Overnight", up to 2 "No Snowfall (24h)", above 2 nothing |
| Explainer.FirstMaxSpec | api/explainer.py:61 | the first maximum: no element above it, none before it equal to it |
| Explainer.TopSpec | api/explainer.py:61-65 | a group's top is empty iff the group is; otherwise it is a member with the largest attribution |
| Explainer.Explain | api/explainer.py:67-76 | `direction` is "up" iff the attribution is positive, "down" otherwise (zero included) |
| Explainer.ExplainAll | api/explainer.py:67-76 | one explanation per selected item, in order |
| Explainer.ExplainRowSpec | api/explainer.py:24-76 | one explanation per non-empty group (so at most three), none for a `weather_code` feature, directions by sign; the snow/precipitation entry first, then the wind entry, then the other entry, each explaining a strongest item of its group |
| Explainer.SelectedSpec | api/explainer.py:34-65 | one item per non-empty group, snow/precipitation first, then wind, then other, each an item of its group with no larger attribution in that group |
| Explainer.SelectedItems | api/explainer.py:24-65 | at most three items are selected, each an item of the row that is not a weather code |
| Explainer.TopOfGroup | api/explainer.py:44-65 | a group's top has one item iff the group has a member, and that item is a strongest member |
| Explainer.GroupsSpec | api/explainer.py:24-58 | which features are kept and which group each kept feature falls into |
| Explainer.FirstRowAtSpec | api/explainer.py:12-13 | the row looked up for an index is the first row carrying it |
| Explainer.GetExplanations | api/explainer.py:2-78 | one entry per row index, each the explanation of that index's row |
| Alerts.CanonicalTypeSpec | api/alert_fetcher.py:55-56 | a bucketed event gets its bucket name; any other event is only whitespace-stripped |
| Alerts.TextOrEmpty | api/alert_fetcher.py:58-68 | a missing element gives "", a present one its text |
| Alerts.DescNamesSpec | api/alert_fetcher.py:74 | an area description splits on " - " into pieces free of the separator that join back to it |
| Alerts.AreaNamesAppend | api/alert_fetcher.py:70-75 | area names run area by area, description by description |
| Alerts.ParseVertexSpec | api/alert_fetcher.py:79-82 | a "lat,lon" token becomes the vertex (lon, lat) |
| Alerts.VertexOfDegrees | api/alert_fetcher.py:79-82 | a northern, western point written as text comes back as (longitude, latitude) |
| Alerts.ParseVertexOfReals | api/alert_fetcher.py:79-82 | two comma-free texts that `float` reads as numbers, joined by a comma, give the vertex (second, first) |
| Alerts.PolygonsPerArea | api/alert_fetcher.py:77-85 | one polygon per area, each the vertices of that area's polygon elements |
| Alerts.ParseInfoSpec | api/alert_fetcher.py:50-95 | an English block with an event yields an alert with the canonical type, "" for each missing field, the split area names and one polygon per area |
| Alerts.ParseInfoEnglish | api/alert_fetcher.py:51-53 | a block that parses yields an alert exactly when it is `en-CA` |
| Alerts.ParseAlertCap | api/alert_fetcher.py:44-97 | the document loop produces the specified alerts |
| Alerts.ParsedAlertsSpec | api/alert_fetcher.py:50-53 | exactly the English blocks produce alerts, one each, in document order |
| Alerts.DirectoryFilters | api/alert_fetcher.py:24-28 | office directories are the base plus hrefs starting with "C"; alert links are those ending in ".cap" |
| Alerts.LatestTimeDirSpec | api/alert_fetcher.py:35-41 | a latest time directory exists iff some href is one, and it is the last such |
| Alerts.LastFiltered | api/alert_fetcher.py:41 | the last element kept by a filter is the last element of the input that passes it |
| Alerts.AlertsOfDir | api/alert_fetcher.py:121-122 | a time directory's documents are parsed in order |
| Alerts.GetAllAlerts | api/alert_fetcher.py:100-124 | every alert of the latest time directory of every office, in order |
| Alerts.Summarize | api/alert_fetcher.py:138-145 | a reported alert keeps every field but the polygons |
| Alerts.ScanPolygons | api/alert_fetcher.py:136-146 | the polygon scan, stopped at the first polygon that contains the point, finds one iff some polygon of the alert contains it |
| Alerts.MatchAlerts | api/alert_fetcher.py:135-146 | the matching loop with its `break` reports the affecting alerts |
| Alerts.AffectingSpec | api/alert_fetcher.py:135-148 | an alert's summary is reported iff one of its polygons contains the point; the report is no longer than the input, and is every alert when all of them match |
| Alerts.AffectingOrder | api/alert_fetcher.py:135-148 | the report lists the alerts at strictly increasing input positions, exactly the positions of the alerts that affect the point: each such alert once, in input order |
| Alerts.PositionsAscending | api/alert_fetcher.py:135-148 | the positions of matching alerts strictly increase |
| Alerts.PositionsComplete | api/alert_fetcher.py:135-148 | every alert that affects the point has its position listed |
| Alerts.AffectingAt | api/alert_fetcher.py:135-148 | entry m of the report summarises the alert at the m-th listed position, and that alert affects the point |
| Alerts.GetAlertsForCoords | api/alert_fetcher.py:127-148 | the day's alerts that affect the point (lon, lat) |
| Service.CounterStep | api/main.py:104-122 | after a visit the stored date is today and the stored hour the current hour |
| Service.CounterStepSpec | api/main.py:111-122 | a new date returns 1; crossing 7 on the same date returns 1; otherwise the previous value plus 1 |
| Service.FirstVisit | api/main.py:98-122 | the first visit ever returns 1 |
| Service.ResetOncePerDay | api/main.py:116-117 | after a visit at or after 7, later visits that day only count up |
| Service.CountsUpBeforeSchool | api/main.py:116-120 | visits before 7 on one day count up one by one |
| Service.RequestCounter.constructor | api/main.py:98-102 | the counter starts at 0 with no date and no hour |
| Service.RequestCounter.Update | api/main.py:104-122 | updates the fields as one counter step; the returned value is the stored value and at least 1 |
| Service.DescribeDay | api/main.py:129-142 | "Today" iff the difference is 0, "Tomorrow" iff 1, otherwise the weekday name, past dates included |
| Service.DescribeDayWeekly | api/main.py:142 | dates a week apart beyond tomorrow get the same name |
| Service.ReasonsSpec | api/main.py:89-93 | exactly the present humanized values are kept |
| Service.KeepReasons | api/main.py:87-93 | the loop keeps the present humanized values, in order |
| Service.ExplainRoute | api/main.py:77-95 | a `KeyError` iff there is no row; otherwise the reasons of the first row only |
| Service.ExplainRouteSpec | api/main.py:82-93 | at most three reasons, each a humanized value of the first row's explanation |
| Text.StripSetSpec | api/alert_fetcher.py:88 | `strip` removes exactly the leading and trailing whitespace |
| Text.StripSetUnchanged | api/alert_fetcher.py:88 | a text that neither starts nor ends with a stripped character is left unchanged |
| Text.StripSetIdempotent | api/alert_fetcher.py:88 | stripping twice is stripping once |
| Text.SplitJoin | api/alert_fetcher.py:74 | joining the pieces of a split with the separator gives the text back |
| Text.SplitPiecesFree | api/alert_fetcher.py:74 | no piece of a split contains the separator |
| Text.SplitAtFirst | api/alert_fetcher.py:82 | a split on one character cuts at its first occurrence |
| Text.ParseRealOfNat | api/alert_fetcher.py:79 | `float` of the decimal text of a whole number is that number, negated with a leading minus |
| Text.ParseRealPadded | api/alert_fetcher.py:79 | `float` ignores whitespace around its text: padding a text with whitespace on either side reads the same value, or the same `ValueError` |
| Text.StripSetUnique | api/alert_fetcher.py:88 | any cut of a text into a stripped-character prefix, a middle that neither starts nor ends with one, and a stripped-character suffix gives that middle as the stripped text |
| Text.StripSetPadded | api/alert_fetcher.py:88 | stripping ignores stripped characters added around a text |

## Left out

- HTTP, HTML and XML:
  - The provider call (`fetch_weather` in all four builders) is a parameter returning
    already-decoded blocks: a function for the live builder, a map from request to
    `hourly` block for the other three.
  - Directory listings and CAP documents are parameters returning href lists and parsed
    `info` records; BeautifulSoup and ElementTree are not part of this model.
  - A missing `hourly`/`daily` key is modelled; a missing key inside a block is not (every
    block carries all its columns).
- Geometry: shapely's `Polygon.contains` is the parameter `inside`. The `ValueError` shapely
  raises for a ring of one or two vertices is not modelled; an area without `polygon`
  elements gives an empty vertex list.
- Machine learning: shap, the trained classifier, the `/predict` route's probabilities and
  everything in the trainers are left out. Attribution values are inputs.
- Rounding and display: `round(...)` of impact and value in `api/explainer.py:70-71` and
  the odds formatting of the web routes are left out, because the model has no floating
  point. Weather values are exact reals; NaN does not occur.
- Explainer.GetExplanations: the DataFrame is a list of (index, attributions) pairs. Each
  sorted group is modelled by its first element only, the first of the largest
  attributions, which is what Python's stable descending sort puts first.
- Clock and time zone: `datetime.today()`, `datetime.now()` and `ZoneInfo` are replaced by
  the parameters `today` (a day number) and `hour`. The live builder's clamp to "yesterday"
  compares dates at midnight with a timestamp of the current time; the model uses the
  resulting day, today minus one.
- Dates: `datetime.fromisoformat` of the builders is taken as the inverse of the date text,
  so ranges are passed as day numbers. `TrainingFetcher.StartDate` and `EndDate` are the day
  numbers of 2025-12-07 and 2025-12-12, and `TrainingFetcher.ConfiguredRange` derives their
  date text; the parsing direction itself is not modelled.
- Text: `str.isdigit` and `float` are modelled for ASCII digits and the form
  `[+|-]digits[.digits]` surrounded by any whitespace `str.isspace` accepts; exponents,
  `inf`, `nan`, underscores and non-ASCII digits are not.
- Persistence and plumbing: pandas DataFrames become sequences of row records. The
  reference dates `SNOW_DAYS` are a sequence of date strings. CSV files, `save_to_file`,
  pickle and the printing of progress are left out.
- Framework: FastAPI, CORS, templates and the browser script are not part of this model.
- Concurrency: the request counter is a sequential object; concurrent requests are not
  modelled.
- Service.RequestCounter.Update: the date text and the hour are parameters rather than
  read from the clock.
- Alerts: the code checks no alert expiry, applies no polygon buffer and fuses no
  severity floor into the probability. The model follows the code and has none of these.
- Errors: exceptions propagate as in the code. A failing sub-fetch fails the whole
  operation rather than contributing nothing.
- LegacyFetcher.LegacyRowOfSpec: states the snowfall features and the penalty. The minimum
  temperature (Python `min` over hours 0..6) and the wind mean are stated by
  `Series.PlainMin` and `Series.SafeMean`, not repeated in this lemma.
