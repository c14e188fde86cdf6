/** The "wrapped" summaries' time windows: a calendar year, a calendar month,
    or one of four fixed Southern-Hemisphere seasons, each as an inclusive
    `[start, end]` pair of civil readings. */
module Wrapped {
  import opened Wrappers
  import opened Civil

  /** An inclusive window of civil time. */
  datatype Window = Window(start: DateTime, end: DateTime)

  /** `t` lies in the window, both ends included. */
  predicate Within(w: Window, t: DateTime)
  {
    AtOrBefore(w.start, t) && AtOrBefore(t, w.end)
  }

  /** `GetYearlyWrapped`: from January 1 at midnight to one second before the
      same instant a year later. */
  function YearWindow(year: int): (w: Window)
    ensures w.start == DateTime(year, 1, 1, 0, 0, 0)
    ensures w.end == DateTime(year, 12, 31, 23, 59, 59)
  {
    var start := DateTime(year, 1, 1, 0, 0, 0);
    Window(start, PrevSecond(AddDate(start, 1, 0)))
  }

  /** The yearly window holds exactly the readings of that year. */
  lemma YearWindowIsYear(year: int, t: DateTime)
    requires Valid(t)
    ensures Within(YearWindow(year), t) <==> t.year == year
  {
  }

  /** `GetMonthlyWrapped`: a month outside 1..12 is refused; otherwise the
      window runs from the first of the month at midnight to one second
      before the first of the next month. */
  function MonthWindow(year: int, month: int): (r: Result<Window>)
    ensures r.Err? <==> month < 1 || month > 12
    ensures r.Err? ==> r.error.InvalidInput?
    ensures r.Ok? ==> r.value.start == DateTime(year, month, 1, 0, 0, 0)
    ensures r.Ok? ==> r.value.end == DateTime(year, month, DaysInMonth(year, month), 23, 59, 59)
  {
    if month < 1 || month > 12 then Err(InvalidInput("month must be 1-12"))
    else
      var start := DateTime(year, month, 1, 0, 0, 0);
      Ok(Window(start, PrevSecond(AddDate(start, 0, 1))))
  }

  /** The monthly window holds exactly the readings of that month. */
  lemma MonthWindowIsMonth(year: int, month: int, t: DateTime)
    requires 1 <= month <= 12 && Valid(t)
    ensures Within(MonthWindow(year, month).value, t) <==> t.year == year && t.month == month
  {
  }

  /** The season names the service accepts (the definition of `domain.Season`
      is not part of this model; these are the names its error message lists). */
  const Summer := "summer"
  const Autumn := "autumn"
  const Winter := "winter"
  const Spring := "spring"

  /** `GetSeasonalWrapped`: an unknown season is refused; otherwise the fixed
      Southern-Hemisphere window, summer starting in December of the year
      before. */
  function SeasonWindow(year: int, season: string): (r: Result<Window>)
    ensures r.Ok? <==> season == Summer || season == Autumn || season == Winter || season == Spring
    ensures r.Err? ==> r.error.InvalidInput?
    ensures r.Ok? ==> Valid(r.value.start) && Valid(r.value.end) && Before(r.value.start, r.value.end)
    ensures r.Ok? ==> r.value.start.hour == 0 && r.value.start.minute == 0 && r.value.start.second == 0
    ensures r.Ok? ==> r.value.end.hour == 23 && r.value.end.minute == 59 && r.value.end.second == 59
  {
    if season == Summer then Ok(Window(DateTime(year - 1, 12, 21, 0, 0, 0), DateTime(year, 3, 20, 23, 59, 59)))
    else if season == Autumn then Ok(Window(DateTime(year, 3, 21, 0, 0, 0), DateTime(year, 6, 20, 23, 59, 59)))
    else if season == Winter then Ok(Window(DateTime(year, 6, 21, 0, 0, 0), DateTime(year, 9, 20, 23, 59, 59)))
    else if season == Spring then Ok(Window(DateTime(year, 9, 21, 0, 0, 0), DateTime(year, 12, 20, 23, 59, 59)))
    else Err(InvalidInput("season must be summer, autumn, winter or spring"))
  }

  /** The seasons tile the calendar: summer, autumn, winter and spring of a
      year, then summer of the next, each begin one second after the previous
      one ends, so no instant is in two seasons and none falls between them. */
  lemma SeasonsTile(year: int)
    ensures PrevSecond(SeasonWindow(year, Autumn).value.start) == SeasonWindow(year, Summer).value.end
    ensures PrevSecond(SeasonWindow(year, Winter).value.start) == SeasonWindow(year, Autumn).value.end
    ensures PrevSecond(SeasonWindow(year, Spring).value.start) == SeasonWindow(year, Winter).value.end
    ensures PrevSecond(SeasonWindow(year + 1, Summer).value.start) == SeasonWindow(year, Spring).value.end
  {
  }

  /** A reading lies in the season of the year it is attributed to: summer
      takes the last days of December into the next year's summer. */
  function SeasonOf(t: DateTime): (r: (int, string))
    requires Valid(t)
    ensures SeasonWindow(r.0, r.1).Ok? && Within(SeasonWindow(r.0, r.1).value, t)
  {
    var md := t.month * 100 + t.day;
    if md >= 1221 then (t.year + 1, Summer)
    else if md >= 921 then (t.year, Spring)
    else if md >= 621 then (t.year, Winter)
    else if md >= 321 then (t.year, Autumn)
    else (t.year, Summer)
  }

  /** Different seasons of the same year never share a reading, nor does a
      season share one with another year's windows. */
  lemma SeasonsDisjoint(y1: int, s1: string, y2: int, s2: string, t: DateTime)
    requires SeasonWindow(y1, s1).Ok? && SeasonWindow(y2, s2).Ok?
    requires Within(SeasonWindow(y1, s1).value, t) && Within(SeasonWindow(y2, s2).value, t)
    ensures y1 == y2 && s1 == s2
  {
  }
}
