/** The grouping and ranking the repository's aggregate queries delegate to
    SQL: `GROUP BY` over a key of the play, `COUNT(*)` and `SUM(ms_played)`
    per group, and `RANK() OVER (ORDER BY COUNT(*) DESC)`. */
module Ranking {
  import opened Wrappers
  import opened Seqs
  import opened Domain

  /** The columns a query groups by. */
  datatype Grouping = ByArtist | BySong | ByAlbum

  /** A group's key: `artist_name`, `(track_name, artist_name)` or
      `(album_name, artist_name)`. */
  datatype Key =
    | ArtistKey(artist: string)
    | SongKey(track: string, artist: string)
    | AlbumKey(album: string, artist: string)

  function KeyOf(g: Grouping, e: Event): Key
  {
    match g
    case ByArtist => ArtistKey(e.artist)
    case BySong => SongKey(e.track, e.artist)
    case ByAlbum => AlbumKey(e.album, e.artist)
  }

  /** The artist column of a grouped row. */
  function ArtistOf(k: Key): string
  {
    k.artist
  }

  /** The track column of a grouped row; only song groups have one. */
  function TrackOf(k: Key): Option<string>
  {
    if k.SongKey? then Some(k.track) else None
  }

  /** The distinct keys of `es`, in order of first appearance. */
  function Keys(g: Grouping, es: seq<Event>): (r: seq<Key>)
    ensures forall i, j :: 0 <= i < j < |r| ==> r[i] != r[j]
    ensures forall i :: 0 <= i < |es| ==> KeyOf(g, es[i]) in r
    ensures forall k :: k in r ==> exists i :: 0 <= i < |es| && KeyOf(g, es[i]) == k
    ensures |r| <= |es|
  {
    if |es| == 0 then []
    else
      var init := es[..|es| - 1];
      var ks := Keys(g, init);
      var k := KeyOf(g, es[|es| - 1]);
      assert forall i :: 0 <= i < |init| ==> init[i] == es[i];
      if k in ks then ks else ks + [k]
  }

  /** `COUNT(*)` of the group with key `k`. */
  function Count(g: Grouping, es: seq<Event>, k: Key): nat
  {
    if |es| == 0 then 0
    else (if KeyOf(g, es[0]) == k then 1 else 0) + Count(g, es[1..], k)
  }

  /** `SUM(ms_played)` of the group with key `k`. */
  function MsSum(g: Grouping, es: seq<Event>, k: Key): int
  {
    if |es| == 0 then 0
    else (if KeyOf(g, es[0]) == k then es[0].msPlayed else 0) + MsSum(g, es[1..], k)
  }

  /** A key that occurs in `es` has a positive count. */
  lemma {:induction false} CountPositive(g: Grouping, es: seq<Event>, i: nat)
    requires i < |es|
    ensures Count(g, es, KeyOf(g, es[i])) >= 1
  {
    if i > 0 {
      CountPositive(g, es[1..], i - 1);
    }
  }

  /** One aggregated group. */
  datatype Group = Group(key: Key, times: nat, ms: int)

  function Times(gr: Group): int
  {
    gr.times
  }

  /** Every distinct key of `es` has a positive count. */
  lemma KeysCounted(g: Grouping, es: seq<Event>)
    ensures forall k :: k in Keys(g, es) ==> Count(g, es, k) >= 1
  {
    forall k | k in Keys(g, es) ensures Count(g, es, k) >= 1 {
      var j :| 0 <= j < |es| && KeyOf(g, es[j]) == k;
      CountPositive(g, es, j);
    }
  }

  /** The group of key `k` among the plays `es`. */
  function GroupOf(g: Grouping, es: seq<Event>, k: Key): Group
  {
    Group(k, Count(g, es, k), MsSum(g, es, k))
  }

  /** `GROUP BY`: one group per distinct key, with its count and total. */
  function Groups(g: Grouping, es: seq<Event>): (r: seq<Group>)
    ensures |r| == |Keys(g, es)|
    ensures forall i :: 0 <= i < |r| ==> r[i] == GroupOf(g, es, Keys(g, es)[i])
    ensures forall i :: 0 <= i < |r| ==> r[i].times >= 1
  {
    var ks := Keys(g, es);
    KeysCounted(g, es);
    seq(|ks|, i requires 0 <= i < |ks| => GroupOf(g, es, ks[i]))
  }

  /** Each play falls in exactly one group, whose key is the play's key. */
  lemma GroupsPartition(g: Grouping, es: seq<Event>, i: nat)
    requires i < |es|
    ensures exists j :: 0 <= j < |Groups(g, es)| && Groups(g, es)[j].key == KeyOf(g, es[i])
    ensures forall j, l :: 0 <= j < l < |Groups(g, es)| ==> Groups(g, es)[j].key != Groups(g, es)[l].key
  {
    var ks := Keys(g, es);
    var j :| 0 <= j < |ks| && ks[j] == KeyOf(g, es[i]);
    assert Groups(g, es)[j].key == KeyOf(g, es[i]);
  }

  // ---------------------------------------------------------------------------
  // Competition rank.

  /** The number of groups whose count is strictly greater than `c`. */
  function Greater(gs: seq<Group>, c: int): nat
  {
    if |gs| == 0 then 0
    else (if gs[0].times > c then 1 else 0) + Greater(gs[1..], c)
  }

  /** `RANK()` of a group with count `c`: one more than the number of groups
      that beat it, so peers share a rank and the next rank skips past them. */
  function RankOf(gs: seq<Group>, c: int): nat
  {
    1 + Greater(gs, c)
  }

  /** Fewer groups beat a larger count. */
  lemma {:induction false} GreaterAntitone(gs: seq<Group>, c1: int, c2: int)
    requires c1 <= c2
    ensures Greater(gs, c2) <= Greater(gs, c1)
  {
    if |gs| > 0 {
      GreaterAntitone(gs[1..], c1, c2);
    }
  }

  /** The group at `j` beats every count below its own, so a strictly
      greater count gets a strictly smaller rank. */
  lemma {:induction false} GreaterStrict(gs: seq<Group>, j: nat, c: int)
    requires j < |gs| && c < gs[j].times
    ensures Greater(gs, gs[j].times) < Greater(gs, c)
  {
    if j == 0 {
      GreaterAntitone(gs[1..], c, gs[0].times);
    } else {
      GreaterStrict(gs[1..], j - 1, c);
    }
  }

  /** A group never beats itself, so no rank exceeds the number of groups. */
  lemma {:induction false} GreaterBelowSize(gs: seq<Group>, j: nat)
    requires j < |gs|
    ensures Greater(gs, gs[j].times) < |gs|
  {
    if j == 0 {
      GreaterAtMostSize(gs[1..], gs[0].times);
    } else {
      GreaterBelowSize(gs[1..], j - 1);
    }
  }

  lemma {:induction false} GreaterAtMostSize(gs: seq<Group>, c: int)
    ensures Greater(gs, c) <= |gs|
  {
    if |gs| > 0 {
      GreaterAtMostSize(gs[1..], c);
    }
  }

  /** Nothing beats a count no group exceeds. */
  lemma {:induction false} GreaterOfMaximum(gs: seq<Group>, c: int)
    requires forall j :: 0 <= j < |gs| ==> gs[j].times <= c
    ensures Greater(gs, c) == 0
  {
    if |gs| > 0 {
      GreaterOfMaximum(gs[1..], c);
    }
  }

  /** One for a group that beats the count `c`. */
  function Beats(c: int): Group -> int
  {
    (gr: Group) => if gr.times > c then 1 else 0
  }

  lemma {:induction false} GreaterIsSum(gs: seq<Group>, c: int)
    ensures Greater(gs, c) == SumOf(gs, Beats(c))
  {
    if |gs| > 0 {
      GreaterIsSum(gs[1..], c);
    }
  }

  /** The count of groups that beat `c` depends only on the groups, not on
      the order the database produces them in. */
  lemma GreaterPermutation(s: seq<Group>, t: seq<Group>, c: int)
    requires multiset(s) == multiset(t)
    ensures Greater(s, c) == Greater(t, c)
  {
    GreaterIsSum(s, c);
    GreaterIsSum(t, c);
    SumOfPermutation(s, t, Beats(c));
  }

  /** `RANK()` as SQL defines it on rows already in `ORDER BY COUNT(*) DESC`
      order: the first row has rank 1, a peer of the previous row repeats its
      rank, and any other row's rank is its 1-based position. */
  function SqlRank(s: seq<Group>, i: nat): nat
    requires i < |s|
  {
    if i == 0 then 1
    else if s[i].times == s[i - 1].times then SqlRank(s, i - 1)
    else i + 1
  }

  /** In a descending sequence the groups beating row `i`'s count are exactly
      the ones before its first peer. */
  lemma {:induction false} GreaterOfSortedPrefix(s: seq<Group>, c: int, k: nat)
    requires k <= |s|
    requires forall j :: 0 <= j < k ==> s[j].times > c
    requires forall j :: k <= j < |s| ==> s[j].times <= c
    ensures Greater(s, c) == k
  {
    if |s| > 0 {
      if k == 0 {
        GreaterOfMaximum(s, c);
      } else {
        GreaterOfSortedPrefix(s[1..], c, k - 1);
      }
    }
  }

  /** The first position holding row `i`'s count in a descending sequence. */
  lemma {:induction false} SqlRankIsFirstPeer(s: seq<Group>, i: nat)
    requires i < |s| && SortedDesc(s, Times)
    ensures 1 <= SqlRank(s, i) <= i + 1
    ensures s[SqlRank(s, i) - 1].times == s[i].times
    ensures forall j :: 0 <= j < SqlRank(s, i) - 1 ==> s[j].times > s[i].times
  {
    if i > 0 {
      SqlRankIsFirstPeer(s, i - 1);
      assert Times(s[i - 1]) >= Times(s[i]);
    }
  }

  /** On rows sorted by count, SQL's positional `RANK()` is the competition
      rank: one more than the number of groups with a strictly greater count. */
  lemma SqlRankIsCompetitionRank(s: seq<Group>, i: nat)
    requires i < |s| && SortedDesc(s, Times)
    ensures SqlRank(s, i) == RankOf(s, s[i].times)
  {
    SqlRankIsFirstPeer(s, i);
    var k := SqlRank(s, i) - 1;
    SortedSuffixAtMost(s, k);
    GreaterOfSortedPrefix(s, s[i].times, k);
  }

  /** In a descending sequence no group from position `k` on beats the count at `k`. */
  lemma SortedSuffixAtMost(s: seq<Group>, k: nat)
    requires k < |s| && SortedDesc(s, Times)
    ensures forall j :: k <= j < |s| ==> s[j].times <= s[k].times
  {
    forall j | k < j < |s| ensures s[j].times <= s[k].times {
      assert Times(s[k]) >= Times(s[j]);
    }
  }

  // ---------------------------------------------------------------------------
  // Ranked rows.

  /** A result row: the rank, the group's key, `COUNT(*)` and `SUM(ms_played)`. */
  datatype Row = Row(rank: nat, key: Key, times: nat, ms: int)

  /** Every group with its competition rank by count among `gs`. */
  function Ranked(gs: seq<Group>): (r: seq<Row>)
    ensures |r| == |gs|
    ensures forall i :: 0 <= i < |r| ==> r[i].key == gs[i].key && r[i].times == gs[i].times && r[i].ms == gs[i].ms
  {
    seq(|gs|, i requires 0 <= i < |gs| => Row(RankOf(gs, gs[i].times), gs[i].key, gs[i].times, gs[i].ms))
  }

  /** Ranks order the groups by count: a rank is no larger than another
      exactly when the count is no smaller, so peers share a rank; every rank
      lies in 1..|gs|, and a group with the largest count has rank 1. */
  lemma RankedOrder(gs: seq<Group>, i: nat, j: nat)
    requires i < |gs| && j < |gs|
    ensures Ranked(gs)[i].rank <= Ranked(gs)[j].rank <==> gs[i].times >= gs[j].times
    ensures 1 <= Ranked(gs)[i].rank <= |gs|
    ensures (forall k :: 0 <= k < |gs| ==> gs[k].times <= gs[i].times) ==> Ranked(gs)[i].rank == 1
  {
    if gs[i].times >= gs[j].times {
      GreaterAntitone(gs, gs[j].times, gs[i].times);
    } else {
      GreaterStrict(gs, j, gs[i].times);
    }
    GreaterBelowSize(gs, i);
    if forall k :: 0 <= k < |gs| ==> gs[k].times <= gs[i].times {
      GreaterOfMaximum(gs, gs[i].times);
    }
  }

  /** Whatever order the database lists the groups in, once they are in
      `ORDER BY COUNT(*) DESC` order each row's rank is SQL's positional
      `RANK()`. */
  lemma RankedIsSqlRank(gs: seq<Group>, i: nat)
    requires i < |gs|
    ensures var s := SortDesc(gs, Times);
      SqlRank(s, i) == RankOf(gs, s[i].times)
  {
    var s := SortDesc(gs, Times);
    SqlRankIsCompetitionRank(s, i);
    GreaterPermutation(s, gs, s[i].times);
  }

  /** The ranking of the plays `es` grouped by `g`. */
  function RankAll(g: Grouping, es: seq<Event>): seq<Row>
  {
    Ranked(Groups(g, es))
  }

  /** Each key appears in at most one row of a ranking. */
  lemma RankAllKeysDistinct(g: Grouping, es: seq<Event>)
    ensures forall i, j :: 0 <= i < j < |RankAll(g, es)| ==> RankAll(g, es)[i].key != RankAll(g, es)[j].key
  {
    var ks := Keys(g, es);
    assert forall i :: 0 <= i < |ks| ==> RankAll(g, es)[i].key == ks[i];
  }

  // ---------------------------------------------------------------------------
  // Row measures used by `ORDER BY`.

  /** `ROUND(SUM(ms_played) / 60000.0, 2)` in hundredths of a minute: the
      nearest multiple of 600 ms, halves rounded away from zero as numeric
      `ROUND` does. */
  function CentiMinutes(ms: int): (r: int)
    ensures ms >= 0 ==> 600 * r - 300 <= ms < 600 * r + 300
    ensures ms < 0 ==> 600 * r - 300 < ms <= 600 * r + 300
  {
    if ms >= 0 then (ms + 300) / 600 else -((-ms + 300) / 600)
  }

  function RowTimes(r: Row): int
  {
    r.times
  }

  function RowMinutes(r: Row): int
  {
    CentiMinutes(r.ms)
  }

  /** Descending by this measure is ascending by rank. */
  function RowRankAsc(r: Row): int
  {
    -(r.rank as int)
  }
}
