/** The service facade: it normalises the request (filter cleaning, limit
    defaulting), validates the wrapped periods, and routes each request to one
    repository query. The stored plays `es` stand for the database; the
    cleaning routines are parameters because their bodies are not part of
    this model. */
module Service {
  import opened Wrappers
  import opened Seqs
  import opened Civil
  import opened Domain
  import opened Ranking
  import opened Repository
  import opened Wrapped

  /** The list length used when the request gives none, or a non-positive one. */
  const DefaultLimit := 10

  /** The length of every wrapped summary. */
  const WrappedLimit := 100

  /** The list kinds `GetTopList` knows. */
  const Artists := "artists"
  const Songs := "songs"
  const Albums := "albums"

  /** The habit kind that selects the day-of-week breakdown. */
  const DayOfWeekHabit := "dow"

  /** The limit the service hands on: the caller's when positive, else the
      default; so the repository never sees a limit below one. */
  function EffectiveLimit(limit: int): (n: int)
    ensures n >= 1
    ensures limit > 0 ==> n == limit
    ensures limit <= 0 ==> n == DefaultLimit
  {
    if limit <= 0 then DefaultLimit else limit
  }

  // ---------------------------------------------------------------------------
  // Top lists.

  /** The grouping a known list kind ranks by. */
  function ListGrouping(listType: string): Grouping
  {
    if listType == Artists then ByArtist else if listType == Songs then BySong else ByAlbum
  }

  /** The measure a known list kind is ordered by: minutes for artists, plays otherwise. */
  function ListKey(listType: string): Row -> int
  {
    if listType == Artists then RowMinutes else RowTimes
  }

  /** `GetTopList`: clean the filter, default the limit, run the list query the
      kind names. An unknown kind yields no data and no error. Because the
      limit handed on is positive, a known kind never fails. */
  function GetTopList(clean: Filters -> Filters, listType: string, limit: int, f: Filters, es: seq<Event>): (r: Result<Option<seq<Row>>>)
    ensures r.Ok?
    ensures r.value.Some? <==> listType == Artists || listType == Songs || listType == Albums
    ensures r.value.Some? ==> |r.value.value| <= EffectiveLimit(limit)
  {
    var g := clean(f);
    var n := EffectiveLimit(limit);
    if listType == Artists then
      var rows := TopArtists(g, n, es); Ok(Some(rows.value))
    else if listType == Songs then
      var rows := TopSongs(g, n, es); Ok(Some(rows.value))
    else if listType == Albums then
      var rows := TopAlbums(g, n, es); Ok(Some(rows.value))
    else Ok(None)
  }

  /** A known list kind yields the top `EffectiveLimit(limit)` rows, by the
      kind's measure, of the kind's ranking of the plays the cleaned filter
      keeps. */
  lemma GetTopListIsTop(clean: Filters -> Filters, listType: string, limit: int, f: Filters, es: seq<Event>)
    requires listType == Artists || listType == Songs || listType == Albums
    ensures IsTopOf(GetTopList(clean, listType, limit, f, es).value.value,
                    RankAll(ListGrouping(listType), Matching(clean(f), es)),
                    ListKey(listType), EffectiveLimit(limit))
  {
    var n := EffectiveLimit(limit);
    if listType == Artists {
      TopArtistsAreTop(clean(f), n, es);
    } else if listType == Songs {
      TopSongsAreTop(clean(f), n, es);
    } else {
      TopAlbumsAreTop(clean(f), n, es);
    }
  }

  // ---------------------------------------------------------------------------
  // Habits.

  /** The two shapes of a habits answer. */
  datatype HabitRows = DayRows(days: seq<Tally<int>>) | BlockRows(blocks: seq<Tally<Bucket>>)

  /** `GetHabitAnalysis`: `"dow"` gives the day-of-week breakdown; any other
      kind, the empty one included, gives the time-of-day breakdown. Either
      way the rows describe exactly the plays the cleaned filter keeps. */
  function GetHabitAnalysis(clean: Filters -> Filters, habitType: string, f: Filters, es: seq<Event>): (r: HabitRows)
    ensures r.DayRows? <==> habitType == DayOfWeekHabit
    ensures r.DayRows? ==> r.days == DayOfWeekRows(Matching(clean(f), es))
    ensures r.BlockRows? ==> r.blocks == TimeOfDayRows(Matching(clean(f), es))
  {
    HabitsByDayOfWeekMeansFilter(clean(f), es);
    HabitsByTimeOfDayMeansFilter(clean(f), es);
    if habitType == DayOfWeekHabit then DayRows(HabitsByDayOfWeek(clean(f), es))
    else BlockRows(HabitsByTimeOfDay(clean(f), es))
  }

  // ---------------------------------------------------------------------------
  // Ranked search.

  /** The ranking a search consults: songs when the cleaned target names a track. */
  function SearchGrouping(t: ArtistTrackFilters): Grouping
  {
    if t.track != "" then BySong else ByArtist
  }

  /** `SearchRankedItem`: clean the filter and the target, default the limit,
      then search the song ranking when a track is named and the artist
      ranking otherwise. The routing never hands the artist ranking a track
      selection, so the search never fails. */
  function SearchRankedItem(clean: Filters -> Filters, cleanTarget: ArtistTrackFilters -> ArtistTrackFilters,
                            f: Filters, target: ArtistTrackFilters, limit: int, es: seq<Event>): (r: Result<seq<Row>>)
    ensures r.Ok?
    ensures |r.value| <= EffectiveLimit(limit)
  {
    var g := clean(f);
    var t := cleanTarget(target);
    var n := EffectiveLimit(limit);
    if t.track != "" then RankedSongs(g, t, n, es)
    else RankedArtist(g, t, n, es)
  }

  /** A search lists, by ascending rank, the first rows the cleaned target
      admits out of the full ranking of the plays the cleaned filter keeps,
      each with its rank in that full ranking. */
  lemma SearchRankedItemIsSelection(clean: Filters -> Filters, cleanTarget: ArtistTrackFilters -> ArtistTrackFilters,
                                    f: Filters, target: ArtistTrackFilters, limit: int, es: seq<Event>)
    ensures var t := cleanTarget(target);
      var full := RankAll(SearchGrouping(t), Matching(clean(f), es));
      var out := SearchRankedItem(clean, cleanTarget, f, target, limit, es).value;
      && IsTopOf(out, Selected(t, full), RowRankAsc, EffectiveLimit(limit))
      && (forall i :: 0 <= i < |out| ==> out[i] in full && RowMatches(t, out[i]))
  {
    var t := cleanTarget(target);
    RankedSearchIsSelection(SearchGrouping(t), clean(f), t, EffectiveLimit(limit), es);
  }

  // ---------------------------------------------------------------------------
  // Wrapped summaries: the top songs of a period, on a filter carrying only
  // the period's bounds.

  /** The filter a wrapped summary queries with: the window's bounds and nothing else. */
  function WindowFilter(w: Window): (f: Filters)
    ensures forall e :: Matches(f, e) <==> Eligible(e) && Within(w, e.ts)
  {
    Filters(Some(w.start), Some(w.end), "", "", "", None, None)
  }

  /** The top songs of the plays a window holds. */
  function TopSongsIn(w: Window, es: seq<Event>): (r: seq<Row>)
    ensures |r| <= WrappedLimit
    ensures IsTopOf(r, RankAll(BySong, Filter(es, e => Eligible(e) && Within(w, e.ts))), RowTimes, WrappedLimit)
  {
    var f := WindowFilter(w);
    TopSongsAreTop(f, WrappedLimit, es);
    FilterExtensional(es, e => Matches(f, e), e => Eligible(e) && Within(w, e.ts));
    TopSongs(f, WrappedLimit, es).value
  }

  /** The eligible plays of one calendar year. */
  function PlaysOfYear(year: int, es: seq<Event>): seq<Event>
  {
    Filter(es, e => Eligible(e) && e.ts.year == year)
  }

  /** `GetYearlyWrapped`: the year's top songs; it never fails. */
  function YearlyWrapped(year: int, es: seq<Event>): (r: Result<seq<Row>>)
    ensures r.Ok?
    ensures IsTopOf(r.value, RankAll(BySong, PlaysOfYear(year, es)), RowTimes, WrappedLimit)
  {
    var w := YearWindow(year);
    forall e: Event ensures Within(w, e.ts) <==> e.ts.year == year {
      YearWindowIsYear(year, e.ts);
    }
    FilterExtensional(es, e => Eligible(e) && Within(w, e.ts), e => Eligible(e) && e.ts.year == year);
    Ok(TopSongsIn(w, es))
  }

  /** The eligible plays of one calendar month. */
  function PlaysOfMonth(year: int, month: int, es: seq<Event>): seq<Event>
  {
    Filter(es, e => Eligible(e) && e.ts.year == year && e.ts.month == month)
  }

  /** `GetMonthlyWrapped`: a month outside 1..12 is refused as invalid input;
      otherwise the month's top songs. */
  function MonthlyWrapped(year: int, month: int, es: seq<Event>): (r: Result<seq<Row>>)
    ensures r.Err? <==> month < 1 || month > 12
    ensures r.Err? ==> r.error.InvalidInput?
    ensures r.Ok? ==> IsTopOf(r.value, RankAll(BySong, PlaysOfMonth(year, month, es)), RowTimes, WrappedLimit)
  {
    match MonthWindow(year, month)
    case Err(e) => Err(e)
    case Ok(w) =>
      assert 1 <= month <= 12;
      forall e: Event ensures Within(w, e.ts) <==> e.ts.year == year && e.ts.month == month {
        MonthWindowIsMonth(year, month, e.ts);
      }
      FilterExtensional(es, e => Eligible(e) && Within(w, e.ts),
                        e => Eligible(e) && e.ts.year == year && e.ts.month == month);
      Ok(TopSongsIn(w, es))
  }

  /** `GetSeasonalWrapped`: an unknown season is refused as invalid input;
      otherwise the top songs of the season's window. */
  function SeasonalWrapped(year: int, season: string, es: seq<Event>): (r: Result<seq<Row>>)
    ensures r.Err? <==> SeasonWindow(year, season).Err?
    ensures r.Err? ==> r.error.InvalidInput?
    ensures r.Ok? ==> IsTopOf(r.value, RankAll(BySong, Filter(es, e => Eligible(e) && Within(SeasonWindow(year, season).value, e.ts))),
                              RowTimes, WrappedLimit)
  {
    match SeasonWindow(year, season)
    case Err(e) => Err(e)
    case Ok(w) => Ok(TopSongsIn(w, es))
  }
}
