/** The week-range helpers of the older feature builders: each picks the Monday-to-Friday
    (or single-day) range that is then handed to the row loop. */
module WeekRanges {
  import opened Calendar

  /** An inclusive range of days. */
  datatype Range = Range(first: Day, last: Day)

  /** `get_last_weeks_data`: Monday to Friday of the previous calendar week. */
  function LastWeek(today: Day): Range
  {
    var monday := today - (Weekday(today) + 7);
    Range(monday, monday + 4)
  }

  /** `get_this_weeks_data`: Monday to Friday of the current calendar week. */
  function ThisWeek(today: Day): Range
  {
    var monday := today - Weekday(today);
    Range(monday, monday + 4)
  }

  /** `get_next_weeks_data`: Monday to Friday of the next calendar week. */
  function NextWeek(today: Day): Range
  {
    var monday := today + (7 - Weekday(today));
    Range(monday, monday + 4)
  }

  /** `get_todays_data` */
  function Today(today: Day): Range
  {
    Range(today, today)
  }

  /** `get_tomorrows_data` */
  function Tomorrow(today: Day): Range
  {
    Range(today + 1, today + 1)
  }

  /** A working week: a Monday and the Friday four days later, so the row loop visits five
      weekdays and no weekend. */
  predicate IsWorkWeek(r: Range)
  {
    Weekday(r.first) == 0 && r.last == r.first + 4 && Weekday(r.last) == 4
  }

  /** The five days of a working week are all weekdays. */
  lemma WorkWeekDays(r: Range)
    requires IsWorkWeek(r)
    ensures Weekday(r.first + 1) == 1 && Weekday(r.first + 2) == 2 && Weekday(r.first + 3) == 3
    ensures WeekdaysIn(r.first, r.last) == [r.first, r.first + 1, r.first + 2, r.first + 3, r.first + 4]
  {
    var m := r.first;
    WeekdayNext(m);
    WeekdayNext(m + 1);
    WeekdayNext(m + 2);
    WeekdayNext(m + 3);
    assert WeekdaysIn(m + 4, m + 4) == [m + 4] + WeekdaysIn(m + 5, m + 4);
    assert WeekdaysIn(m + 3, m + 4) == [m + 3] + WeekdaysIn(m + 4, m + 4);
    assert WeekdaysIn(m + 2, m + 4) == [m + 2] + WeekdaysIn(m + 3, m + 4);
    assert WeekdaysIn(m + 1, m + 4) == [m + 1] + WeekdaysIn(m + 2, m + 4);
  }

  /** This week runs from the Monday on or before today to the Friday after it, and holds
      today exactly when today is a weekday. */
  lemma ThisWeekIsWorkWeek(today: Day)
    ensures IsWorkWeek(ThisWeek(today))
    ensures ThisWeek(today).first <= today < ThisWeek(today).first + 7
    ensures IsWeekday(today) <==> ThisWeek(today).first <= today <= ThisWeek(today).last
  {
    var w := Weekday(today);
  }

  /** Last week is the working week seven days before this one. */
  lemma LastWeekIsWorkWeek(today: Day)
    ensures IsWorkWeek(LastWeek(today))
    ensures LastWeek(today).first == ThisWeek(today).first - 7
  {
    var w := Weekday(today);
  }

  /** Next week is the working week seven days after this one, and starts after today. */
  lemma NextWeekIsWorkWeek(today: Day)
    ensures IsWorkWeek(NextWeek(today))
    ensures NextWeek(today).first == ThisWeek(today).first + 7
    ensures NextWeek(today).first > today
  {
    var w := Weekday(today);
  }

  /** Every week range is a Monday-to-Friday week: this week's contains today (or, on a
      weekend, ends just before it), last week's is seven days earlier and next week's seven
      days later. */
  lemma WeekRangesSpec(today: Day)
    ensures IsWorkWeek(LastWeek(today)) && IsWorkWeek(ThisWeek(today)) && IsWorkWeek(NextWeek(today))
    ensures ThisWeek(today).first <= today < ThisWeek(today).first + 7
    ensures IsWeekday(today) <==> ThisWeek(today).first <= today <= ThisWeek(today).last
    ensures LastWeek(today).first == ThisWeek(today).first - 7
    ensures NextWeek(today).first == ThisWeek(today).first + 7
    ensures NextWeek(today).first > today
  {
    ThisWeekIsWorkWeek(today);
    LastWeekIsWorkWeek(today);
    NextWeekIsWorkWeek(today);
  }
}
