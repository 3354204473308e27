/** The web service's own logic (api/main.py): the visit counter, the day names shown
    next to predictions, and the reasons the `/explain` route returns. */
module Service {
  import opened Common
  import opened Calendar
  import opened Explainer

  /** The counter's state: the count, the date it counts for and the hour of the last
      visit (`None` before the first). */
  datatype CounterState = CounterState(value: int, lastDate: Option<string>, hour: Option<int>)

  /** The hour at which school starts: the first visit at or after it resets the day's count. */
  const SchoolStartHour := 7

  /** One visit at `hour` on `today`: a new date resets the count, as does the first visit
      at or after school start following one before it; then the count goes up by one. */
  function CounterStep(s: CounterState, today: string, hour: int): (s': CounterState)
    ensures s'.lastDate == Some(today) && s'.hour == Some(hour)
  {
    var base :=
      if s.lastDate != Some(today) then 0
      else if s.hour.Some? && s.hour.value < SchoolStartHour && hour >= SchoolStartHour then 0
      else s.value;
    CounterState(base + 1, Some(today), Some(hour))
  }

  /** The count a visit returns: 1 after a reset, one more than before otherwise. */
  lemma CounterStepSpec(s: CounterState, today: string, hour: int)
    ensures s.lastDate != Some(today) ==> CounterStep(s, today, hour).value == 1
    ensures s.lastDate == Some(today) && s.hour.Some? && s.hour.value < 7 && hour >= 7 ==>
      CounterStep(s, today, hour).value == 1
    ensures s.lastDate == Some(today) && !(s.hour.Some? && s.hour.value < 7 && hour >= 7) ==>
      CounterStep(s, today, hour).value == s.value + 1
    ensures s.value >= 0 ==> CounterStep(s, today, hour).value >= 1
  {
  }

  /** The first visit ever returns 1, whatever the hour. */
  lemma FirstVisit(today: string, hour: int)
    ensures CounterStep(CounterState(0, None, None), today, hour) == CounterState(1, Some(today), Some(hour))
  {
  }

  /** The school-start reset happens once a day: after a visit at or after 7, later visits
      the same day only count up. */
  lemma ResetOncePerDay(s: CounterState, today: string, h1: int, h2: int)
    requires h1 >= 7
    ensures var s1 := CounterStep(s, today, h1);
      CounterStep(s1, today, h2).value == s1.value + 1
  {
  }

  /** Visits on one day before school starts count up from the first. */
  lemma {:induction false} CountsUpBeforeSchool(s: CounterState, today: string, hours: seq<int>)
    requires s.lastDate == Some(today) && s.hour.Some? && s.hour.value < 7
    requires forall k :: 0 <= k < |hours| ==> hours[k] < 7
    ensures Visits(s, today, hours).value == s.value + |hours|
    decreases |hours|
  {
    if |hours| > 0 {
      CountsUpBeforeSchool(CounterStep(s, today, hours[0]), today, hours[1..]);
    }
  }

  /** The state after several visits on one day. */
  function Visits(s: CounterState, today: string, hours: seq<int>): CounterState
    decreases |hours|
  {
    if |hours| == 0 then s else Visits(CounterStep(s, today, hours[0]), today, hours[1..])
  }

  /** The `COUNTER` dictionary and `update_counter`. */
  class RequestCounter {
    var value: int
    var lastDate: Option<string>
    var hour: Option<int>

    function State(): CounterState
      reads this
    {
      CounterState(value, lastDate, hour)
    }

    /** The count is never negative. */
    predicate Valid()
      reads this
    {
      value >= 0
    }

    constructor ()
      ensures State() == CounterState(0, None, None) && Valid()
    {
      value := 0;
      lastDate := None;
      hour := None;
    }

    /** `update_counter` with the current date text and hour passed in. */
    method Update(today: string, now: int) returns (count: int)
      requires Valid()
      modifies this
      ensures State() == CounterStep(old(State()), today, now)
      ensures count == value && count >= 1 && Valid()
    {
      if lastDate != Some(today) {
        value := 0;
        lastDate := Some(today);
      } else if hour.Some? && hour.value < SchoolStartHour && now >= SchoolStartHour {
        value := 0;
      }
      hour := Some(now);
      value := value + 1;
      count := value;
    }
  }

  const DayNames: seq<string> := ["Monday", "Tuesday", "Wednesday", "Thursday", "Friday", "Saturday", "Sunday"]

  /** `describe_day`: "Today", "Tomorrow", or otherwise the weekday's name, for future and
      past dates alike. */
  function DescribeDay(date: Day, today: Day): (name: string)
    ensures date - today == 0 <==> name == "Today"
    ensures date - today == 1 <==> name == "Tomorrow"
    ensures date - today != 0 && date - today != 1 ==> name == DayNames[Weekday(date)]
  {
    var diff := date - today;
    if diff == 0 then "Today"
    else if diff == 1 then "Tomorrow"
    else DayNames[Weekday(date)]
  }

  /** Dates a week apart that are neither today nor tomorrow get the same name. */
  lemma DescribeDayWeekly(date: Day, today: Day)
    requires date - today > 1
    ensures DescribeDay(date + 7, today) == DescribeDay(date, today)
  {
    WeekdayShift(date, 1);
  }

  /** The reasons of some explanation entries: the humanized values that are not `None`,
      in order. */
  function Reasons(es: seq<Explanation>): (rs: seq<string>)
    ensures |rs| <= |es|
  {
    if |es| == 0 then []
    else (if es[0].humanizedValue.Some? then [es[0].humanizedValue.value] else []) + Reasons(es[1..])
  }

  /** `Reasons` keeps exactly the present humanized values. */
  lemma {:induction false} ReasonsSpec(es: seq<Explanation>)
    ensures forall r :: r in Reasons(es) <==> exists k :: 0 <= k < |es| && es[k].humanizedValue == Some(r)
  {
    if |es| > 0 {
      ReasonsSpec(es[1..]);
      forall r | (exists k :: 0 <= k < |es| && es[k].humanizedValue == Some(r)) ensures r in Reasons(es) {
        var k :| 0 <= k < |es| && es[k].humanizedValue == Some(r);
        if k > 0 {
          assert es[1..][k - 1] == es[k];
        }
      }
      forall r | r in Reasons(es) ensures exists k :: 0 <= k < |es| && es[k].humanizedValue == Some(r) {
        if r in Reasons(es[1..]) {
          var k :| 0 <= k < |es[1..]| && es[1..][k].humanizedValue == Some(r);
          assert es[k + 1] == es[1..][k];
        }
      }
    }
  }

  /** The loop of the `/explain` route over one row's explanation entries. */
  method KeepReasons(explanations: seq<Explanation>) returns (results: seq<string>)
    ensures results == Reasons(explanations)
  {
    results := [];
    for k := 0 to |explanations|
      invariant results + Reasons(explanations[k..]) == Reasons(explanations)
    {
      assert explanations[k..][1..] == explanations[k + 1..];
      if explanations[k].humanizedValue.Some? {
        results := results + [explanations[k].humanizedValue.value];
      }
    }
    assert explanations[|explanations|..] == [];
    assert results + [] == results;
  }

  /** The `/explain` route, given the attributions of this week's rows: the explanation of
      the first row only (a `KeyError` when there is none), keeping the entries that have
      a humanized value. */
  method ExplainRoute(rows: seq<seq<Attribution>>) returns (r: Result<seq<string>>)
    ensures r.Err? <==> |rows| == 0
    ensures r.Err? ==> r.error == KeyError
    ensures r.Ok? ==> r.value == Reasons(ExplainRow(rows[0]))
  {
    if |rows| == 0 {
      var all := GetExplanations([]);
      assert 0 !in all;
      return Err(KeyError);
    }
    var data := [(0, rows[0])];
    var all := GetExplanations(data);
    assert data[0].0 == 0;
    assert 0 in all;
    var results := KeepReasons(all[0]);
    r := Ok(results);
  }

  /** The route returns at most three reasons, each the humanized value of an entry of the
      first row's explanation. */
  lemma ExplainRouteSpec(rows: seq<seq<Attribution>>)
    requires |rows| > 0
    ensures var es := ExplainRow(rows[0]);
      && |Reasons(es)| <= 3
      && forall r :: r in Reasons(es) <==> exists k :: 0 <= k < |es| && es[k].humanizedValue == Some(r)
  {
    ExplainRowSpec(rows[0]);
    ReasonsSpec(ExplainRow(rows[0]));
  }
}
