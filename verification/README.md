# My-spotify-data: the listening-history query core, in Dafny

This project models the query core of the *My-spotify-data* backend. The
backend stores a personal Spotify streaming history, one row per play, and
answers questions about it:

- top artists, songs and albums;
- listening habits by time of day and by weekday;
- where an artist or a song sits in the global ranking;
- "wrapped" summaries for a year, a month or a season.

The model covers three layers.

- **The repository's SQL, read as functions over the stored plays.**
  - `buildWhereClause` compiles a request filter to a `WHERE` clause with positional `$n` parameters.
  - `buildWhereArtistTrackClause` compiles the post-ranking artist/track selection, numbered after the base parameters.
  - The queries apply these clauses, then group (`GROUP BY`), rank (`RANK() OVER (ORDER BY COUNT(*) DESC)`), order and `LIMIT`.
  - The model evaluates the compiled clauses against a play. It proves that they keep exactly the plays the filter means, field by field, and that placeholders run `1..n` with no gap.
- **The service facade.**
  - Limit defaulting (a non-positive limit becomes 10).
  - List-kind and habit-kind routing, and the choice between song and artist ranking.
  - Month and season validation, and the wrapped time windows.
- **The pagination envelope** `NewPagination`: the page-count arithmetic and the "data is never nil" promise.

Modules, one per concern:

| file | module | what it holds |
|---|---|---|
| wrappers.dfy | `Wrappers` | `Option`, `Result`, and the two error kinds `InvalidInput` and `StoreFailure` |
| seqs.dfy | `Seqs` | filtering, insertion sort, top-N, sums, distinctness |
| patterns.dfy | `Patterns` | SQL `LIKE`/`ILIKE` over strings, with `%`, `_` and `\` |
| civil.dfy | `Civil` | proleptic-Gregorian civil time, Go's `AddDate` normalisation, one-second steps |
| domain.dfy | `Domain` | a play, the request filter, the artist/track selection, what a filter means |
| where.dfy | `WhereClause` | the two clause builders, their parameter numbering and their meaning |
| ranking.dfy | `Ranking` | grouping, competition rank (`RANK()`), ranked rows, rounded minutes |
| repository.dfy | `Repository` | top lists, ranked search, time-of-day and weekday habits |
| wrapped.dfy | `Wrapped` | yearly, monthly and seasonal windows |
| service.dfy | `Service` | the facade's routing, defaulting and validation |
| pagination.dfy | `Pagination` | the paginated envelope |

Modelling choices:

- Calls to the database become pure functions of the sequence of stored plays.
- A PostgreSQL failure becomes `StoreFailure`. Two cases are modelled: a negative `LIMIT` is refused, and the ranked artist search with a track selection refers to a column the ranking does not have.
- `CleanAndValidate` and `Clean` are not part of this model. The service takes them as function parameters.
- The SQL `RANK()` is defined twice:
  - positionally, as SQL defines it on rows in ranking order;
  - as one plus the number of groups with a strictly larger count.
  
  The model proves the two equal.

Two boundaries of the service deserve a note:

- An unknown list kind in `GetTopList` falls to the `default:` branch, which returns no data and no error; the model returns `Ok(None)`.
- The wrapped year bound (2010 through next year) is checked in the HTTP handler, not the service, so it is not modelled.

## Model

| member | source | states |
|---|---|---|
| Civil.DaysInMonth | backend/internal/service/spotify_service.go:107-108 | a month has 28 to 31 days, and February has 29 exactly in a leap year |
| Civil.BeforeIsChronological | backend/internal/repository/spotify_repository.go:41-50 | the field-by-field order the `ts >= $n` / `ts <= $n` bounds use is the order of the instants (seconds since an epoch) |
| Civil.PrevSecond | backend/internal/service/spotify_service.go:95 | `Add(-time.Second)` yields a valid reading exactly one second earlier |
| Civil.NormalizeMonth | backend/internal/service/spotify_service.go:108 | an out-of-range month is carried into the year so that year*12+month is preserved |
| Civil.AddDate | backend/internal/service/spotify_service.go:95 | `AddDate` yields a valid reading with the same time of day |
| Civil.AddMonthsToFirstOfMonth | backend/internal/service/spotify_service.go:107-108 | adding months to the first of a month lands on the first of the month that many months later |
| Civil.DayOfWeek | backend/internal/repository/spotify_repository.go:258 | `EXTRACT(DOW)` is one of the seven values 0..6 |
| Civil.DayOfWeekAdvances | backend/internal/repository/spotify_repository.go:258 | the weekday of the next date is one more, Saturday (6) wrapping to Sunday (0) |
| Civil.NewYear1970 | backend/internal/repository/spotify_repository.go:258 | 1 January 1970, a Thursday, has weekday 4, so with the step lemma Sunday is 0 as PostgreSQL numbers it |
| Civil.LeapDay2000 | backend/internal/repository/spotify_repository.go:258 | 29 February 2000, a Tuesday, has weekday 2 |
| Civil.NewYear2024 | backend/internal/repository/spotify_repository.go:258 | 1 January 2024, a Monday, has weekday 1 |
| Patterns.PrefixPattern | backend/internal/repository/spotify_repository.go:37 | `LIKE 'spotify:track:%'` holds exactly of strings with that prefix |
| Patterns.SurroundIsSubstring | backend/internal/repository/spotify_repository.go:53 | for a term free of pattern characters, `LIKE '%term%'` is a substring test |
| Patterns.ILikeSurroundIsSubstring | backend/internal/repository/spotify_repository.go:52-53 | `ILIKE '%term%'` is a case-insensitive substring test for such a term |
| Patterns.UnescapedWildcardMatchesNonSubstring | backend/internal/repository/spotify_repository.go:53 | a search term containing `_` is not escaped and matches names that do not contain it |
| Domain.TermIsSubstring | backend/internal/repository/spotify_repository.go:57-58 | an artist or track sub-filter with a plain term keeps names containing it, ignoring ASCII case |
| WhereClause.HoldsUnderExtension | backend/internal/repository/spotify_repository.go:135-137 | binding more parameters after a node's own does not change whether it holds |
| WhereClause.BuildWhereClause | backend/internal/repository/spotify_repository.go:36-73 | the base clause opens with the track-scope and noise-floor checks, and its placeholders are exactly 1..number of parameters |
| WhereClause.BaseClausePresence | backend/internal/repository/spotify_repository.go:41-70 | each optional condition appears exactly when its field is set; the hour range only when both hours are set |
| WhereClause.BaseClauseOrder | backend/internal/repository/spotify_repository.go:41-70 | optional conditions come in the order start, end, search, artist, track, hours, each at most once |
| WhereClause.BaseClauseReferencesBound | backend/internal/repository/spotify_repository.go:36-73 | the placeholders the SQL text mentions, the search condition's three mentions of one placeholder included, are exactly `$1..$n` for the `n` parameters passed |
| WhereClause.BaseClauseArgCount | backend/internal/repository/spotify_repository.go:41-70 | one parameter per set field and two for the hour range |
| WhereClause.BaseClauseMeansFilter | backend/internal/repository/spotify_repository.go:36-73 | the compiled clause with its parameters holds of a play exactly when the filter matches it, whatever is bound after |
| WhereClause.BuildSelectionClause | backend/internal/repository/spotify_repository.go:76-97 | no condition and no parameter when both fields are empty; else artist then track, numbered from the start placeholder with no gap, with terms wrapped in `%` |
| WhereClause.SelectionMeansTarget | backend/internal/repository/spotify_repository.go:76-97 | bound after the base parameters, the selection holds of a ranked row exactly when the row's artist and track satisfy the selection |
| Ranking.Keys | backend/internal/repository/spotify_repository.go:133 | the grouping keys are distinct, cover every play and come only from plays |
| Ranking.Groups | backend/internal/repository/spotify_repository.go:130-133 | one group per distinct key, each with its count (at least one) and millisecond total |
| Ranking.GroupsPartition | backend/internal/repository/spotify_repository.go:133 | every play falls in exactly one group, the one with its key |
| Ranking.GreaterPermutation | backend/internal/repository/spotify_repository.go:127 | the number of groups beating a count does not depend on the order the groups come in |
| Ranking.SqlRankIsFirstPeer | backend/internal/repository/spotify_repository.go:127 | on rows in ranking order, `RANK()` is the position of the first row with the same count |
| Ranking.SqlRankIsCompetitionRank | backend/internal/repository/spotify_repository.go:127 | on rows in ranking order, `RANK()` is one plus the number of groups with a strictly larger count |
| Ranking.Ranked | backend/internal/repository/spotify_repository.go:126-130 | each ranked row carries its group's key, count and total unchanged |
| Ranking.RankedOrder | backend/internal/repository/spotify_repository.go:127 | a rank is at most another exactly when its count is at least the other's; ranks lie in 1..number of groups; a maximum count ranks 1 |
| Ranking.RankedIsSqlRank | backend/internal/repository/spotify_repository.go:161 | the model's rank equals SQL's positional `RANK()` once the groups are sorted by count |
| Ranking.RankAllKeysDistinct | backend/internal/repository/spotify_repository.go:167 | a ranking has at most one row per key |
| Ranking.CentiMinutes | backend/internal/repository/spotify_repository.go:129 | `ROUND(SUM(ms_played) / 60000.0, 2)` is the nearest hundredth of a minute, halves away from zero |
| Repository.Chain | backend/internal/repository/spotify_repository.go:348-368 | base, selection and limit parameters numbered 1..n in that order, the limit last |
| Repository.RankedQuery | backend/internal/repository/spotify_repository.go:344-368 | the ranked statement's placeholders are exactly 1..number of parameters |
| Repository.ScopeIsMatching | backend/internal/repository/spotify_repository.go:124-137 | whatever is bound after the base parameters, every statement keeps exactly the plays the filter means |
| Repository.TopArtists | backend/internal/repository/spotify_repository.go:123-153 | fails exactly for a negative limit; otherwise returns at most `limit` rows |
| Repository.TopSongs | backend/internal/repository/spotify_repository.go:157-186 | fails exactly for a negative limit; otherwise returns at most `limit` rows |
| Repository.TopAlbums | backend/internal/repository/spotify_repository.go:189-218 | fails exactly for a negative limit; otherwise returns at most `limit` rows |
| Repository.TopArtistsAreTop | backend/internal/repository/spotify_repository.go:126-135 | the rows are `min(limit, groups)` rows of the artist ranking of the filtered plays, by minutes descending, and none left out has more minutes than one kept |
| Repository.TopSongsAreTop | backend/internal/repository/spotify_repository.go:159-169 | the same for songs, by play count |
| Repository.TopAlbumsAreTop | backend/internal/repository/spotify_repository.go:191-201 | the same for albums, by play count |
| Repository.ResolvesSelection | backend/internal/repository/spotify_repository.go:391-405 | the outer selection names only existing columns exactly when the ranking is by song or no track is asked for |
| Repository.RankedSearch | backend/internal/repository/spotify_repository.go:342-423 | succeeds exactly when the limit is non-negative and a track selection meets the song ranking; at most `limit` rows |
| Repository.KeptIsSelected | backend/internal/repository/spotify_repository.go:363-364 | the outer `WHERE` keeps exactly the ranked rows whose names satisfy the selection |
| Repository.RankedSearchIsSelection | backend/internal/repository/spotify_repository.go:352-366 | the result is the first `limit` selected rows of the full ranking, by ascending rank, each a row of that ranking |
| Repository.SelectionDoesNotRerank | backend/internal/repository/spotify_repository.go:343-347 | two searches with different selections and limits report the same rank for the same group |
| Repository.LabelsIdentifyBlocks | backend/internal/repository/spotify_repository.go:224-233 | the four labels differ, so grouping by label groups by block |
| Repository.BucketsPartition | backend/internal/repository/spotify_repository.go:225-230 | every play falls in exactly one of the four time-of-day blocks |
| Repository.TimeOfDayRowsReport | backend/internal/repository/spotify_repository.go:223-234 | rows are by count descending, one per block with plays, with that block's count, and the counts add up to the plays |
| Repository.HabitsByTimeOfDayMeansFilter | backend/internal/repository/spotify_repository.go:221-234 | the time-of-day rows describe exactly the plays the filter keeps |
| Repository.DayOfWeekRowsOrdered | backend/internal/repository/spotify_repository.go:261-262 | weekday rows are in strictly ascending weekday order |
| Repository.DayOfWeekRowsCounts | backend/internal/repository/spotify_repository.go:258-261 | one row per weekday with plays, carrying that weekday's count |
| Repository.DayOfWeekRowsTotal | backend/internal/repository/spotify_repository.go:258-261 | the weekday counts add up to the number of plays |
| Repository.HabitsByDayOfWeekMeansFilter | backend/internal/repository/spotify_repository.go:254-262 | the weekday rows describe exactly the plays the filter keeps |
| Wrapped.YearWindow | backend/internal/service/spotify_service.go:93-95 | the yearly window runs from January 1 00:00:00 to December 31 23:59:59 |
| Wrapped.YearWindowIsYear | backend/internal/service/spotify_service.go:94-97 | a reading is in the yearly window exactly when it is in that year |
| Wrapped.MonthWindow | backend/internal/service/spotify_service.go:101-108 | refuses a month outside 1..12 as invalid input; otherwise runs from the 1st 00:00:00 to the month's last day 23:59:59 |
| Wrapped.MonthWindowIsMonth | backend/internal/service/spotify_service.go:106-110 | a reading is in the monthly window exactly when it is in that year and month |
| Wrapped.SeasonWindow | backend/internal/service/spotify_service.go:114-139 | accepts exactly the four season names; each window is valid, starts at midnight and ends at 23:59:59 after it starts |
| Wrapped.SeasonsTile | backend/internal/service/spotify_service.go:126-139 | each season begins one second after the previous one ends, spring running into the next year's summer |
| Wrapped.SeasonOf | backend/internal/service/spotify_service.go:126-139 | every valid reading lies in some season's window |
| Wrapped.SeasonsDisjoint | backend/internal/service/spotify_service.go:126-139 | no reading lies in two different seasons' windows |
| Service.EffectiveLimit | backend/internal/service/spotify_service.go:41-43 | the limit handed on is the caller's when positive, else 10; never below one |
| Service.GetTopList | backend/internal/service/spotify_service.go:39-55 | never fails; has data exactly for "artists", "songs" or "albums"; at most the effective limit of rows |
| Service.GetTopListIsTop | backend/internal/service/spotify_service.go:45-51 | a known kind yields the top rows, by its measure, of its ranking of the plays the cleaned filter keeps |
| Service.GetHabitAnalysis | backend/internal/service/spotify_service.go:57-64 | "dow" gives the weekday rows and any other kind the time-of-day rows, of the plays the cleaned filter keeps |
| Service.SearchRankedItem | backend/internal/service/spotify_service.go:77-89 | never fails, because a track selection only goes to the song ranking; at most the effective limit of rows |
| Service.SearchRankedItemIsSelection | backend/internal/service/spotify_service.go:85-88 | the result is a rank-ordered selection of the song ranking when a track is named, else of the artist ranking |
| Service.WindowFilter | backend/internal/service/spotify_service.go:97 | a wrapped filter keeps exactly the eligible plays inside its window |
| Service.TopSongsIn | backend/internal/service/spotify_service.go:97-98 | the wrapped list is the top 100 songs, by play count, of the eligible plays in the window |
| Service.YearlyWrapped | backend/internal/service/spotify_service.go:92-99 | never fails; the top 100 songs of the eligible plays of that calendar year |
| Service.MonthlyWrapped | backend/internal/service/spotify_service.go:101-112 | refuses a month outside 1..12 as invalid input; otherwise the top 100 songs of that month's eligible plays |
| Service.SeasonalWrapped | backend/internal/service/spotify_service.go:114-143 | refuses an unknown season as invalid input; otherwise the top 100 songs of the season window's eligible plays |
| Pagination.Encode | backend/internal/domain/pagination.go:8 | nil data of either kind encodes as JSON `null`; a slice, even an empty one, encodes as an array of its items |
| Pagination.GoDiv | backend/internal/domain/pagination.go:19 | `/` truncates toward zero: the remainder has the dividend's sign and is smaller than the divisor |
| Pagination.TotalPages | backend/internal/domain/pagination.go:17-20 | zero pages for a non-positive limit; otherwise, for a non-negative total, the least page count that holds every item |
| Pagination.NewPagination | backend/internal/domain/pagination.go:12-29 | counters pass through; a nil interface becomes an empty slice, and any other data passes through unchanged |
| Pagination.NilSliceEncodesNull | backend/internal/domain/pagination.go:13-15 | a typed nil slice passes the nil check and still encodes as `null` |
| Pagination.NewPaginationNonNil | backend/internal/domain/pagination.go:11-15 | the corrected envelope's data always encodes as an array, and its counters are those of `NewPagination` |
| Pagination.NonNilAgreesOnItems | backend/internal/domain/pagination.go:11-15 | the corrected envelope agrees with the original except on a nil slice, and encodes exactly the items given |

## Left out

- Time zones and daylight saving time are not modelled. Timestamps are civil readings in the service's zone, `America/Santiago`. Across a DST change, Go's `AddDate(...).Add(-time.Second)` can give a different wall-clock reading than the civil step modelled here.
- Sub-second precision is not modelled. Timestamps are whole seconds.
- `GetTotalStats`, `GetYearlyStats` and `GetHistoryEvolution` are left out, along with the facade calls that only forward to them (`GetDashboardStats`, `GetYearlyStats`, `GetGlobalEvolution`). They compute floating-point hour and minute sums and averages.
- Minutes played are kept as exact hundredths of a minute (`CentiMinutes`), not as a `float64`.
- Go's 64-bit `int` is not modelled; integers are unbounded. A limit, count or page total large enough to wrap around is not represented.
- `CleanAndValidate` and `Clean` are not part of this model. The service takes them as parameters, so nothing is assumed about what they repair.
- The definition of `domain.Season` is not part of this model. The season names are taken as "summer", "autumn", "winter" and "spring", the names the service's error message lists.
- `SpotifyFilters` as declared in `backend/internal/domain/spotifyRecord.go` has no `Artist` or `Track` field, yet `buildWhereClause` reads `f.Artist` and `f.Track`; the model adds them as plain strings. The declaration of `ArtistTrackFilters` is not part of this model; the handler fills its `Artist` and `Track` fields from strings, so it is modelled as a record of two strings.
- The year bound on wrapped requests (2010 through next year), the HTTP transport, JSON decoding of requests and the database connection are not modelled.
- Store failures other than the two modelled ones are left out: lost connections, timeouts, cancellation and row-scan errors.
- A search term ending in a lone `\`, which PostgreSQL rejects as a malformed `LIKE` pattern, is not modelled. The pattern matcher simply fails to match it.
- Case folding is ASCII only. PostgreSQL `ILIKE` folds according to the database locale, which this model does not represent.
- `NULL` columns (a play without an artist, album or track name) are not modelled. Every name is a string.
- Error message texts are not modelled. Only the error kinds are.
- The order of rows that tie on the `ORDER BY` key is not fixed by the SQL. The model fixes one order (a stable insertion sort) and proves only order-independent facts about tied rows.
- Repository.TopArtists: does not state which of several artists tied on minutes are kept at the `LIMIT` boundary, because the database may keep any of them.
- Wrapped.YearWindowIsYear, Wrapped.MonthWindowIsMonth: state membership for valid readings only, because stored timestamps are always real instants.
- Pagination.TotalPages: states the ceiling property for non-negative totals only, because a negative total gives a truncated quotient, not a ceiling, and totals are counts.

## Findings

| source | as written | input that shows it | evidently intended | confidence | as-written member | corrected member |
|---|---|---|---|---|---|---|
| backend/internal/domain/pagination.go:11-15 | only `data == nil` is replaced, and that comparison is false for a nil slice of a concrete type stored in the `interface{}` | `NewPagination([]domain.SongRankingDTO(nil), 0, 1, 10)` encodes `"data": null`; the repository returns such a nil slice (`var rankings []…`) when no row matches | every nil payload, interface or slice, becomes an empty array, as the comment "never nil" and "guarantees [] in the JSON" says | medium, not executed | Pagination.NilSliceEncodesNull | Pagination.NewPaginationNonNil |
