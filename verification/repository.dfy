/** The repository's aggregate queries as functions over the stored plays:
    the statement each one prepares (conditions plus positional parameters)
    and the rows the database returns for it. */
module Repository {
  import opened Wrappers
  import opened Seqs
  import opened Civil
  import opened Domain
  import opened WhereClause
  import opened Ranking

  // ---------------------------------------------------------------------------
  // Statements.

  /** A prepared statement: the `WHERE` conditions over plays, the conditions
      over already-ranked rows, the `LIMIT` placeholder if any, and every
      bound parameter in placeholder order. */
  datatype Query = Query(base: seq<Cond>, selection: seq<Cond>, limitSlot: Option<int>, args: seq<Arg>)

  /** Every placeholder the statement uses, in order of appearance. */
  function QuerySlots(q: Query): seq<int>
  {
    Slots(q.base) + Slots(q.selection) + (if q.limitSlot.Some? then [q.limitSlot.value] else [])
  }

  /** Chaining a clause numbered from 1, a clause numbered right after it
      and a trailing `LIMIT` placeholder numbers the whole statement 1..n. */
  function Chain(b: Clause, s: Clause, limit: int): (q: Query)
    requires Slots(b.conds) == Iota(1, |b.args|)
    requires Slots(s.conds) == Iota(|b.args| + 1, |s.args|)
    ensures QuerySlots(q) == Iota(1, |q.args|)
    ensures q.limitSlot == Some(|q.args|) && q.args[|q.args| - 1] == IntArg(limit)
    ensures q.base == b.conds && q.selection == s.conds && q.args == b.args + s.args + [IntArg(limit)]
  {
    var nb, ns := |b.args|, |s.args|;
    var q := Query(b.conds, s.conds, Some(nb + ns + 1), b.args + s.args + [IntArg(limit)]);
    assert |q.args| == nb + ns + 1;
    assert QuerySlots(q) == Slots(b.conds) + Slots(s.conds) + [nb + ns + 1];
    IotaThreeParts(nb, ns);
    q
  }

  /** `1..nb`, then `nb+1..nb+ns`, then one more slot, number `1..nb+ns+1`. */
  lemma IotaThreeParts(nb: nat, ns: nat)
    ensures Iota(1, nb) + Iota(nb + 1, ns) + [nb + ns + 1] == Iota(1, nb + ns + 1)
  {
    IotaSplit(1, nb, ns);
    assert Iota(nb + ns + 1, 1) == [nb + ns + 1];
    IotaSplit(1, nb + ns, 1);
  }

  /** The plain aggregates (habits): the base clause and nothing else. */
  function AggregateQuery(f: Filters): (q: Query)
    ensures QuerySlots(q) == Iota(1, |q.args|)
    ensures q.limitSlot.None?
  {
    var c := BuildWhereClause(f);
    assert Slots([]) == [];
    Query(c.conds, [], None, c.args)
  }

  /** The top lists: the base clause, then `LIMIT $n` with `n = len(args)+1`. */
  function TopQuery(f: Filters, limit: int): (q: Query)
    ensures QuerySlots(q) == Iota(1, |q.args|)
    ensures q.limitSlot == Some(|q.args|) && q.args[|q.args| - 1] == IntArg(limit)
  {
    var c := BuildWhereClause(f);
    assert Slots([]) == [];
    Chain(c, Clause([], []), limit)
  }

  /** Ranked search: the base clause inside the ranking, the selection on
      the ranked rows numbered from `len(baseArgs)+1`, then the `LIMIT`
      placeholder after all of them. */
  function RankedQuery(f: Filters, t: ArtistTrackFilters, limit: int): (q: Query)
    ensures QuerySlots(q) == Iota(1, |q.args|)
    ensures q.limitSlot == Some(|q.args|) && q.args[|q.args| - 1] == IntArg(limit)
  {
    var base := BuildWhereClause(f);
    Chain(base, BuildSelectionClause(t, |base.args| + 1), limit)
  }

  /** The plays the statement's `WHERE` keeps. */
  function Scope(q: Query, es: seq<Event>): seq<Event>
  {
    Filter(es, e => HoldsAll(q.base, q.args, e))
  }

  /** The plays a filter keeps, by its field-by-field meaning. */
  function Matching(f: Filters, es: seq<Event>): seq<Event>
  {
    Filter(es, e => Matches(f, e))
  }

  /** Whichever statement carries the base clause, it keeps exactly the plays
      the filter means: the parameters bound after it do not change it. */
  lemma ScopeIsMatching(f: Filters, t: ArtistTrackFilters, limit: int, es: seq<Event>)
    ensures Scope(AggregateQuery(f), es) == Matching(f, es)
    ensures Scope(TopQuery(f, limit), es) == Matching(f, es)
    ensures Scope(RankedQuery(f, t, limit), es) == Matching(f, es)
  {
    var c := BuildWhereClause(f);
    var sel := BuildSelectionClause(t, |c.args| + 1);
    assert c.args + [] == c.args;
    ScopeOfBase(f, [], AggregateQuery(f), es);
    ScopeOfBase(f, [IntArg(limit)], TopQuery(f, limit), es);
    assert c.args + sel.args + [IntArg(limit)] == c.args + (sel.args + [IntArg(limit)]);
    ScopeOfBase(f, sel.args + [IntArg(limit)], RankedQuery(f, t, limit), es);
  }

  /** A statement whose `WHERE` is the base clause, with any parameters bound
      after the base ones, keeps exactly the plays the filter means. */
  lemma ScopeOfBase(f: Filters, post: seq<Arg>, q: Query, es: seq<Event>)
    requires q.base == BuildWhereClause(f).conds && q.args == BuildWhereClause(f).args + post
    ensures Scope(q, es) == Matching(f, es)
  {
    forall i | 0 <= i < |es| ensures HoldsAll(q.base, q.args, es[i]) == Matches(f, es[i]) {
      BaseClauseMeansFilter(f, post, es[i]);
    }
    FilterExtensional(es, e => HoldsAll(q.base, q.args, e), e => Matches(f, e));
  }

  const NegativeLimit := StoreFailure("LIMIT must not be negative")

  // ---------------------------------------------------------------------------
  // Top lists.

  /** `GetTopArtists`: artists ranked by play count but listed by minutes
      played, most first. */
  function TopArtists(f: Filters, limit: int, es: seq<Event>): (r: Result<seq<Row>>)
    ensures r.Ok? <==> limit >= 0
    ensures r.Ok? ==> |r.value| <= limit
  {
    var q := TopQuery(f, limit);
    if limit < 0 then Err(NegativeLimit)
    else Ok(TopN(RankAll(ByArtist, Scope(q, es)), RowMinutes, limit))
  }

  /** `GetTopSongs`: (track, artist) pairs by play count, most first. */
  function TopSongs(f: Filters, limit: int, es: seq<Event>): (r: Result<seq<Row>>)
    ensures r.Ok? <==> limit >= 0
    ensures r.Ok? ==> |r.value| <= limit
  {
    var q := TopQuery(f, limit);
    if limit < 0 then Err(NegativeLimit)
    else Ok(TopN(RankAll(BySong, Scope(q, es)), RowTimes, limit))
  }

  /** `GetTopAlbums`: (album, artist) pairs by play count, most first. */
  function TopAlbums(f: Filters, limit: int, es: seq<Event>): (r: Result<seq<Row>>)
    ensures r.Ok? <==> limit >= 0
    ensures r.Ok? ==> |r.value| <= limit
  {
    var q := TopQuery(f, limit);
    if limit < 0 then Err(NegativeLimit)
    else Ok(TopN(RankAll(ByAlbum, Scope(q, es)), RowTimes, limit))
  }

  /** What a top list promises about the ranking `all` it is drawn from:
      `min(limit, |all|)` rows of it, in descending order of `key`, and no row
      left out measures more than one kept. */
  predicate IsTopOf(out: seq<Row>, all: seq<Row>, key: Row -> int, limit: nat)
  {
    && |out| == (if limit < |all| then limit else |all|)
    && SortedDesc(out, key)
    && multiset(out) <= multiset(all)
    && forall x :: x in multiset(all) - multiset(out) ==>
         forall i :: 0 <= i < |out| ==> key(x) <= key(out[i])
  }

  /** `GetTopArtists` is a top selection, by minutes, of the artist ranking
      of the plays the filter keeps. */
  lemma TopArtistsAreTop(f: Filters, limit: nat, es: seq<Event>)
    ensures IsTopOf(TopArtists(f, limit, es).value, RankAll(ByArtist, Matching(f, es)), RowMinutes, limit)
  {
    ScopeIsMatching(f, EmptySelection, limit, es);
    TopNIsTop(RankAll(ByArtist, Matching(f, es)), RowMinutes, limit);
  }

  /** `GetTopSongs` is a top selection, by play count, of the song ranking
      of the plays the filter keeps. */
  lemma TopSongsAreTop(f: Filters, limit: nat, es: seq<Event>)
    ensures IsTopOf(TopSongs(f, limit, es).value, RankAll(BySong, Matching(f, es)), RowTimes, limit)
  {
    ScopeIsMatching(f, EmptySelection, limit, es);
    TopNIsTop(RankAll(BySong, Matching(f, es)), RowTimes, limit);
  }

  /** `GetTopAlbums` is a top selection, by play count, of the album ranking
      of the plays the filter keeps. */
  lemma TopAlbumsAreTop(f: Filters, limit: nat, es: seq<Event>)
    ensures IsTopOf(TopAlbums(f, limit, es).value, RankAll(ByAlbum, Matching(f, es)), RowTimes, limit)
  {
    ScopeIsMatching(f, EmptySelection, limit, es);
    TopNIsTop(RankAll(ByAlbum, Matching(f, es)), RowTimes, limit);
  }

  const EmptySelection := ArtistTrackFilters("", "")

  // ---------------------------------------------------------------------------
  // Ranked search: rank over the base filter, then select.

  /** The error PostgreSQL raises when the outer selection names the track
      column of a ranking that has none. */
  const MissingTrackColumn := StoreFailure("column \"track_name\" does not exist")

  /** Every column the selection names exists in the ranked rows of grouping
      `g`: only the song ranking carries `track_name`. */
  predicate Resolves(cs: seq<Cond>, g: Grouping)
  {
    forall i :: 0 <= i < |cs| ==> cs[i].TrackLike? ==> g == BySong
  }

  /** The selection of a ranked search resolves against a ranking exactly
      when that ranking has a track column or no track is asked for. */
  lemma ResolvesSelection(g: Grouping, t: ArtistTrackFilters, start: int)
    ensures Resolves(BuildSelectionClause(t, start).conds, g) <==> g == BySong || t.track == ""
  {
    var cs := BuildSelectionClause(t, start).conds;
    if t.track != "" {
      assert cs[|cs| - 1].TrackLike?;
    }
  }

  /** The track column of a ranked row, when the ranking has one. */
  function TrackColumn(r: Row): string
  {
    TrackOf(r.key).GetOr("")
  }

  /** Whether a ranked row passes the statement's outer `WHERE`. */
  predicate RowSelected(q: Query, r: Row)
  {
    HoldsAllOnRow(q.selection, q.args, ArtistOf(r.key), TrackColumn(r))
  }

  /** `GetRankedSongs` / `GetRankedArtist`: rank every group the base filter
      keeps, keep the ranked rows the selection admits, list them by rank. */
  function RankedSearch(g: Grouping, f: Filters, t: ArtistTrackFilters, limit: int, es: seq<Event>): (r: Result<seq<Row>>)
    ensures r.Ok? <==> limit >= 0 && (g == BySong || t.track == "")
    ensures r.Ok? ==> |r.value| <= limit
  {
    var q := RankedQuery(f, t, limit);
    ResolvesSelection(g, t, |BuildWhereClause(f).args| + 1);
    if !Resolves(q.selection, g) then Err(MissingTrackColumn)
    else if limit < 0 then Err(NegativeLimit)
    else
      var kept := Filter(RankAll(g, Scope(q, es)), r => RowSelected(q, r));
      Ok(TopN(kept, RowRankAsc, limit))
  }

  function RankedSongs(f: Filters, t: ArtistTrackFilters, limit: int, es: seq<Event>): Result<seq<Row>>
  {
    RankedSearch(BySong, f, t, limit, es)
  }

  function RankedArtist(f: Filters, t: ArtistTrackFilters, limit: int, es: seq<Event>): Result<seq<Row>>
  {
    RankedSearch(ByArtist, f, t, limit, es)
  }

  /** Whether a ranked row's names satisfy the selection. */
  predicate RowMatches(t: ArtistTrackFilters, r: Row)
  {
    Selects(t, ArtistOf(r.key), TrackColumn(r))
  }

  /** The rows of `rows` the selection admits. */
  function Selected(t: ArtistTrackFilters, rows: seq<Row>): seq<Row>
  {
    Filter(rows, r => RowMatches(t, r))
  }

  /** The ranked statement's outer `WHERE` holds of a row exactly when the
      row's names satisfy the selection. */
  lemma RowSelectedMeansTarget(f: Filters, t: ArtistTrackFilters, limit: int, r: Row)
    ensures RowSelected(RankedQuery(f, t, limit), r) == RowMatches(t, r)
  {
    var base := BuildWhereClause(f);
    var sel := BuildSelectionClause(t, |base.args| + 1);
    var q := RankedQuery(f, t, limit);
    assert q.selection == sel.conds && q.args == base.args + sel.args + [IntArg(limit)];
    SelectionMeansTarget(t, base.args, [IntArg(limit)], ArtistOf(r.key), TrackColumn(r));
  }

  /** The statement's outer `WHERE` keeps exactly the rows the selection means. */
  lemma KeptIsSelected(g: Grouping, f: Filters, t: ArtistTrackFilters, limit: int, rows: seq<Row>)
    ensures var q := RankedQuery(f, t, limit);
      Filter(rows, r => RowSelected(q, r)) == Selected(t, rows)
  {
    var q := RankedQuery(f, t, limit);
    forall i | 0 <= i < |rows| ensures RowSelected(q, rows[i]) == RowMatches(t, rows[i]) {
      RowSelectedMeansTarget(f, t, limit, rows[i]);
    }
    FilterExtensional(rows, r => RowSelected(q, r), r => RowMatches(t, r));
  }

  /** A ranked search lists, by ascending rank, the first `limit` rows the
      selection admits out of the ranking of every play the base filter keeps;
      each listed row is a row of that ranking, so the selection never changes
      a rank; and a row it admits but leaves out ranks no better than any
      row listed. */
  lemma RankedSearchIsSelection(g: Grouping, f: Filters, t: ArtistTrackFilters, limit: nat, es: seq<Event>)
    requires g == BySong || t.track == ""
    ensures var full := RankAll(g, Matching(f, es));
      var out := RankedSearch(g, f, t, limit, es).value;
      && IsTopOf(out, Selected(t, full), RowRankAsc, limit)
      && (forall i, j :: 0 <= i < j < |out| ==> out[i].rank <= out[j].rank)
      && (forall i :: 0 <= i < |out| ==> out[i] in full && RowMatches(t, out[i]))
  {
    RankedSearchIsTopN(g, f, t, limit, es);
    FirstSelected(t, RankAll(g, Matching(f, es)), limit);
  }

  /** The first `limit` selected rows, by rank, are a top selection listed
      by ascending rank, each a row of the ranking the selection admits. */
  lemma FirstSelected(t: ArtistTrackFilters, full: seq<Row>, limit: nat)
    ensures var out := TopN(Selected(t, full), RowRankAsc, limit);
      && IsTopOf(out, Selected(t, full), RowRankAsc, limit)
      && (forall i, j :: 0 <= i < j < |out| ==> out[i].rank <= out[j].rank)
      && (forall i :: 0 <= i < |out| ==> out[i] in full && RowMatches(t, out[i]))
  {
    var sel := Selected(t, full);
    var out := TopN(sel, RowRankAsc, limit);
    TopNIsTop(sel, RowRankAsc, limit);
    forall i, j | 0 <= i < j < |out| ensures out[i].rank <= out[j].rank {
      assert RowRankAsc(out[i]) >= RowRankAsc(out[j]);
    }
    forall i | 0 <= i < |out| ensures out[i] in full && RowMatches(t, out[i]) {
      assert out[i] in multiset(out);
      assert out[i] in sel;
    }
  }

  /** A ranked search keeps the first `limit` selected rows of the full
      ranking, by ascending rank. */
  lemma RankedSearchIsTopN(g: Grouping, f: Filters, t: ArtistTrackFilters, limit: nat, es: seq<Event>)
    requires g == BySong || t.track == ""
    ensures RankedSearch(g, f, t, limit, es).value == TopN(Selected(t, RankAll(g, Matching(f, es))), RowRankAsc, limit)
  {
    ScopeIsMatching(f, t, limit, es);
    KeptIsSelected(g, f, t, limit, RankAll(g, Matching(f, es)));
  }

  /** In rows with distinct keys, a key determines the row. */
  lemma KeyDeterminesRow(rows: seq<Row>, x: Row, y: Row)
    requires forall i, j :: 0 <= i < j < |rows| ==> rows[i].key != rows[j].key
    requires x in rows && y in rows && x.key == y.key
    ensures x == y
  {
    var a :| 0 <= a < |rows| && rows[a] == x;
    var b :| 0 <= b < |rows| && rows[b] == y;
  }

  /** Ranking happens before selection: two searches over the same plays and
      base filter, whatever their selections and limits, report the same rank
      for the same group. */
  lemma SelectionDoesNotRerank(g: Grouping, f: Filters, t1: ArtistTrackFilters, t2: ArtistTrackFilters,
                               limit1: nat, limit2: nat, es: seq<Event>)
    requires g == BySong || (t1.track == "" && t2.track == "")
    ensures var out1 := RankedSearch(g, f, t1, limit1, es).value;
      var out2 := RankedSearch(g, f, t2, limit2, es).value;
      forall i, j :: 0 <= i < |out1| && 0 <= j < |out2| && out1[i].key == out2[j].key ==> out1[i].rank == out2[j].rank
  {
    var out1 := RankedSearch(g, f, t1, limit1, es).value;
    var out2 := RankedSearch(g, f, t2, limit2, es).value;
    RankedSearchIsSelection(g, f, t1, limit1, es);
    RankedSearchIsSelection(g, f, t2, limit2, es);
    RankAllKeysDistinct(g, Matching(f, es));
    forall i, j | 0 <= i < |out1| && 0 <= j < |out2| && out1[i].key == out2[j].key
      ensures out1[i].rank == out2[j].rank
    {
      KeyDeterminesRow(RankAll(g, Matching(f, es)), out1[i], out2[j]);
    }
  }

  // ---------------------------------------------------------------------------
  // Listening habits.

  /** One `(bin, count)` row of a habits query. */
  datatype Tally<L> = Tally(bin: L, count: int)

  function TallyCount<L>(t: Tally<L>): int
  {
    t.count
  }

  predicate Nonzero<L>(t: Tally<L>)
  {
    t.count > 0
  }

  /** `GROUP BY` over a fixed set of bins: each bin with its count. */
  function TalliesOf<L>(bins: seq<L>, count: L -> int): (r: seq<Tally<L>>)
    ensures |r| == |bins|
    ensures forall i :: 0 <= i < |r| ==> r[i] == Tally(bins[i], count(bins[i]))
  {
    if |bins| == 0 then [] else [Tally(bins[0], count(bins[0]))] + TalliesOf(bins[1..], count)
  }

  /** The bins with a positive count, each with its count, are what survives
      dropping the empty ones. */
  lemma KeptTallies<L>(bins: seq<L>, count: L -> int)
    ensures forall t :: t in Filter(TalliesOf(bins, count), Nonzero) ==> t.bin in bins && 0 < t.count == count(t.bin)
    ensures forall j :: 0 <= j < |bins| && count(bins[j]) > 0 ==> Tally(bins[j], count(bins[j])) in Filter(TalliesOf(bins, count), Nonzero)
  {
    var ts := TalliesOf(bins, count);
    var kept := Filter(ts, Nonzero);
    forall t | t in kept ensures t.bin in bins && 0 < t.count == count(t.bin) {
      var i :| 0 <= i < |kept| && kept[i] == t;
      var k :| 0 <= k < |ts| && ts[k] == t;
    }
    forall j | 0 <= j < |bins| && count(bins[j]) > 0 ensures Tally(bins[j], count(bins[j])) in kept {
      assert ts[j] == Tally(bins[j], count(bins[j]));
    }
  }

  lemma {:induction false} TalliesSum<L>(bins: seq<L>, count: L -> int)
    ensures SumOf(TalliesOf(bins, count), TallyCount) == SumOf(bins, count)
  {
    if |bins| > 0 {
      var ts := TalliesOf(bins, count);
      TalliesSum(bins[1..], count);
      assert ts[1..] == TalliesOf(bins[1..], count);
      assert SumOf(ts, TallyCount) == count(bins[0]) + SumOf(ts[1..], TallyCount);
      assert SumOf(bins, count) == count(bins[0]) + SumOf(bins[1..], count);
    }
  }

  lemma TalliesDistinct<L>(bins: seq<L>, count: L -> int)
    requires Distinct(bins)
    ensures Distinct(TalliesOf(bins, count))
  {
    var ts := TalliesOf(bins, count);
    forall i, j | 0 <= i < j < |ts| ensures ts[i] != ts[j] {
      assert ts[i].bin == bins[i] != bins[j] == ts[j].bin;
    }
  }

  /** The bins with a positive count, most first (`GROUP BY … ORDER BY count DESC`). */
  function RowsByCount<L>(bins: seq<L>, count: L -> int): seq<Tally<L>>
  {
    SortDesc(Filter(TalliesOf(bins, count), Nonzero), TallyCount)
  }

  /** Every row reported is a bin with its positive count, and every bin with
      a positive count is reported. */
  lemma {:induction false} RowsByCountReport<L>(bins: seq<L>, count: L -> int)
    ensures var out := RowsByCount(bins, count);
      && SortedDesc(out, TallyCount)
      && (forall i :: 0 <= i < |out| ==> out[i].bin in bins && 0 < out[i].count == count(out[i].bin))
      && (forall j :: 0 <= j < |bins| && count(bins[j]) > 0 ==> Tally(bins[j], count(bins[j])) in out)
  {
    var ts := TalliesOf(bins, count);
    var kept := Filter(ts, Nonzero);
    var out := SortDesc(kept, TallyCount);
    forall i | 0 <= i < |out| ensures out[i].bin in bins && 0 < out[i].count == count(out[i].bin) {
      assert out[i] in multiset(kept);
    }
    forall j | 0 <= j < |bins| && count(bins[j]) > 0 ensures Tally(bins[j], count(bins[j])) in out {
      assert ts[j] in multiset(kept);
    }
  }

  /** Over distinct bins nothing is reported twice, and the reported counts
      add up to the counts of all bins. */
  lemma RowsByCountTotal<L>(bins: seq<L>, count: L -> int)
    requires Distinct(bins)
    requires forall j :: 0 <= j < |bins| ==> count(bins[j]) >= 0
    ensures Distinct(RowsByCount(bins, count))
    ensures SumOf(RowsByCount(bins, count), TallyCount) == SumOf(bins, count)
  {
    var ts := TalliesOf(bins, count);
    var kept := Filter(ts, Nonzero);
    TalliesDistinct(bins, count);
    DistinctFilter(ts, Nonzero);
    DistinctPermutation(RowsByCount(bins, count), kept);
    SumOfFilter(ts, Nonzero, TallyCount);
    SumOfPermutation(RowsByCount(bins, count), kept, TallyCount);
    TalliesSum(bins, count);
  }

  /** The four blocks of the day, in the order the `CASE` tests them. */
  datatype Bucket = Morning | Afternoon | Night | Dawn

  const Buckets: seq<Bucket> := [Morning, Afternoon, Night, Dawn]

  /** The `CASE` over `EXTRACT(HOUR FROM ts)`: 6–11, 12–17, 18–23, and the
      remaining hours (0–5) as the small hours. */
  function BucketOf(hour: int): Bucket
  {
    if 6 <= hour <= 11 then Morning
    else if 12 <= hour <= 17 then Afternoon
    else if 18 <= hour <= 23 then Night
    else Dawn
  }

  /** The label the query reports for a block. */
  function Label(b: Bucket): string
  {
    match b
    case Morning => "Mañana"
    case Afternoon => "Tarde"
    case Night => "Noche"
    case Dawn => "Madrugada"
  }

  /** The four labels differ, so `GROUP BY label` groups the plays by block. */
  lemma LabelsIdentifyBlocks(a: Bucket, b: Bucket)
    ensures Label(a) == Label(b) <==> a == b
  {
  }

  /** The plays of `es` falling in block `b`. */
  function InBucket(es: seq<Event>, b: Bucket): nat
  {
    if |es| == 0 then 0
    else (if BucketOf(es[0].ts.hour) == b then 1 else 0) + InBucket(es[1..], b)
  }

  function BucketCounter(es: seq<Event>): Bucket -> int
  {
    b => InBucket(es, b)
  }

  /** Every play falls in exactly one block. */
  lemma {:induction false} BucketsPartition(es: seq<Event>)
    ensures InBucket(es, Morning) + InBucket(es, Afternoon) + InBucket(es, Night) + InBucket(es, Dawn) == |es|
  {
    if |es| > 0 {
      BucketsPartition(es[1..]);
    }
  }

  lemma BucketsSum(es: seq<Event>)
    ensures SumOf(Buckets, BucketCounter(es)) == |es|
    ensures Distinct(Buckets)
  {
    var c := BucketCounter(es);
    assert Buckets[1..][1..][1..][1..] == [];
    assert SumOf(Buckets[1..][1..][1..], c) == InBucket(es, Dawn);
    assert SumOf(Buckets[1..][1..], c) == InBucket(es, Night) + InBucket(es, Dawn);
    assert SumOf(Buckets[1..], c) == InBucket(es, Afternoon) + InBucket(es, Night) + InBucket(es, Dawn);
    BucketsPartition(es);
  }

  /** A row per block that has plays among `s`, most plays first. */
  function TimeOfDayRows(s: seq<Event>): seq<Tally<Bucket>>
  {
    RowsByCount(Buckets, BucketCounter(s))
  }

  /** The rows report, most first, each block that has plays, once, with its
      number of plays; and they account for every play. */
  lemma TimeOfDayRowsReport(s: seq<Event>)
    ensures var out := TimeOfDayRows(s);
      && SortedDesc(out, TallyCount)
      && (forall i :: 0 <= i < |out| ==> 0 < out[i].count == InBucket(s, out[i].bin))
      && (forall b :: InBucket(s, b) > 0 ==> Tally(b, InBucket(s, b)) in out)
      && Distinct(out)
      && SumOf(out, TallyCount) == |s|
  {
    RowsByCountReport(Buckets, BucketCounter(s));
    TimeOfDayRowsCover(s);
    TimeOfDayRowsTotal(s);
  }

  lemma TimeOfDayRowsCover(s: seq<Event>)
    ensures forall b :: InBucket(s, b) > 0 ==> Tally(b, InBucket(s, b)) in TimeOfDayRows(s)
  {
    RowsByCountReport(Buckets, BucketCounter(s));
    forall b | InBucket(s, b) > 0 ensures Tally(b, InBucket(s, b)) in TimeOfDayRows(s) {
      assert b == Buckets[BucketIndex(b)];
    }
  }

  lemma TimeOfDayRowsTotal(s: seq<Event>)
    ensures Distinct(TimeOfDayRows(s))
    ensures SumOf(TimeOfDayRows(s), TallyCount) == |s|
  {
    BucketsSum(s);
    RowsByCountTotal(Buckets, BucketCounter(s));
  }

  /** `GetHabitsByTimeOfDay`: the rows for the plays the base clause keeps. */
  function HabitsByTimeOfDay(f: Filters, es: seq<Event>): seq<Tally<Bucket>>
  {
    TimeOfDayRows(Scope(AggregateQuery(f), es))
  }

  /** The time-of-day habits are the rows for the plays the filter keeps. */
  lemma HabitsByTimeOfDayMeansFilter(f: Filters, es: seq<Event>)
    ensures HabitsByTimeOfDay(f, es) == TimeOfDayRows(Matching(f, es))
  {
    ScopeIsMatching(f, EmptySelection, 0, es);
  }

  /** Where a block sits in `Buckets`. */
  function BucketIndex(b: Bucket): (j: nat)
    ensures j < |Buckets| && Buckets[j] == b
  {
    match b
    case Morning => 0
    case Afternoon => 1
    case Night => 2
    case Dawn => 3
  }

  // Day of the week.

  /** The plays of `es` on weekday `d` (`EXTRACT(DOW FROM ts)`, Sunday = 0). */
  function OnDay(es: seq<Event>, d: int): nat
  {
    if |es| == 0 then 0
    else (if DayOfWeek(es[0].ts) == d then 1 else 0) + OnDay(es[1..], d)
  }

  /** The plays of `es` on weekday `d` or later in the week. */
  function OnOrAfter(es: seq<Event>, d: int): nat
  {
    if |es| == 0 then 0
    else (if DayOfWeek(es[0].ts) >= d then 1 else 0) + OnOrAfter(es[1..], d)
  }

  function DayCounter(es: seq<Event>): int -> int
  {
    d => OnDay(es, d)
  }

  /** Sunday (0) to Saturday (6). */
  const Weekdays: seq<int> := Iota(0, 7)

  lemma {:induction false} OnOrAfterSplit(es: seq<Event>, d: int)
    ensures OnOrAfter(es, d) == OnDay(es, d) + OnOrAfter(es, d + 1)
  {
    if |es| > 0 {
      OnOrAfterSplit(es[1..], d);
    }
  }

  lemma {:induction false} OnOrAfterEnds(es: seq<Event>)
    ensures OnOrAfter(es, 0) == |es|
    ensures OnOrAfter(es, 7) == 0
  {
    if |es| > 0 {
      OnOrAfterEnds(es[1..]);
    }
  }

  lemma {:induction false} WeekdaysFrom(es: seq<Event>, d: nat)
    requires d <= 7
    ensures SumOf(Iota(d, 7 - d), DayCounter(es)) == OnOrAfter(es, d)
    decreases 7 - d
  {
    if d == 7 {
      OnOrAfterEnds(es);
    } else {
      WeekdaysFrom(es, d + 1);
      OnOrAfterSplit(es, d);
      assert Iota(d, 7 - d)[1..] == Iota(d + 1, 7 - (d + 1));
    }
  }

  /** Every play falls on exactly one weekday. */
  lemma WeekdaysPartition(es: seq<Event>)
    ensures SumOf(Weekdays, DayCounter(es)) == |es|
  {
    WeekdaysFrom(es, 0);
    OnOrAfterEnds(es);
  }

  function TallyBin(t: Tally<int>): int
  {
    t.bin
  }

  /** A row per weekday that has plays among `s`, Sunday first. */
  function DayOfWeekRows(s: seq<Event>): seq<Tally<int>>
  {
    Filter(TalliesOf(Weekdays, DayCounter(s)), Nonzero)
  }

  /** The rows come in weekday order, Sunday first. */
  lemma DayOfWeekRowsOrdered(s: seq<Event>)
    ensures StrictlyAscending(DayOfWeekRows(s), TallyBin)
  {
    var ts := TalliesOf(Weekdays, DayCounter(s));
    assert StrictlyAscending(ts, TallyBin);
    FilterKeepsAscending(ts, Nonzero, TallyBin);
  }

  /** Every row is a weekday with its positive number of plays, and every
      weekday with plays has its row. */
  lemma DayOfWeekRowsCounts(s: seq<Event>)
    ensures var out := DayOfWeekRows(s);
      && (forall i :: 0 <= i < |out| ==> 0 <= out[i].bin < 7 && 0 < out[i].count == OnDay(s, out[i].bin))
      && (forall d :: OnDay(s, d) > 0 ==> Tally(d, OnDay(s, d)) in out)
  {
    DayOfWeekRowsBins(s);
    DayOfWeekRowsCover(s);
  }

  lemma DayOfWeekRowsBins(s: seq<Event>)
    ensures var out := DayOfWeekRows(s);
      forall i :: 0 <= i < |out| ==> 0 <= out[i].bin < 7 && 0 < out[i].count == OnDay(s, out[i].bin)
  {
    var out := DayOfWeekRows(s);
    KeptTallies(Weekdays, DayCounter(s));
    forall i | 0 <= i < |out| ensures 0 <= out[i].bin < 7 && 0 < out[i].count == OnDay(s, out[i].bin) {
      assert out[i] in out;
    }
  }

  lemma DayOfWeekRowsCover(s: seq<Event>)
    ensures forall d :: OnDay(s, d) > 0 ==> Tally(d, OnDay(s, d)) in DayOfWeekRows(s)
  {
    KeptTallies(Weekdays, DayCounter(s));
    forall d | OnDay(s, d) > 0 ensures Tally(d, OnDay(s, d)) in DayOfWeekRows(s) {
      OnDayInWeek(s, d);
      assert Weekdays[d] == d;
    }
  }

  /** The rows account for every play. */
  lemma DayOfWeekRowsTotal(s: seq<Event>)
    ensures SumOf(DayOfWeekRows(s), TallyCount) == |s|
  {
    var ts := TalliesOf(Weekdays, DayCounter(s));
    SumOfFilter(ts, Nonzero, TallyCount);
    TalliesSum(Weekdays, DayCounter(s));
    WeekdaysPartition(s);
  }

  /** Only the days of the week have plays. */
  lemma {:induction false} OnDayInWeek(es: seq<Event>, d: int)
    requires OnDay(es, d) > 0
    ensures 0 <= d < 7
  {
    if DayOfWeek(es[0].ts) != d {
      OnDayInWeek(es[1..], d);
    }
  }

  /** `GetHabitsByDayOfWeek`: the rows for the plays the base clause keeps. */
  function HabitsByDayOfWeek(f: Filters, es: seq<Event>): seq<Tally<int>>
  {
    DayOfWeekRows(Scope(AggregateQuery(f), es))
  }

  /** The day-of-week habits are the rows for the plays the filter keeps. */
  lemma HabitsByDayOfWeekMeansFilter(f: Filters, es: seq<Event>)
    ensures HabitsByDayOfWeek(f, es) == DayOfWeekRows(Matching(f, es))
  {
    ScopeIsMatching(f, EmptySelection, 0, es);
  }
}
