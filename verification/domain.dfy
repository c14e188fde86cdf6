/** The records the query layer works on: a play event (one row of the
    listening history), the per-request filter, and the post-ranking
    artist/track selection. */
module Domain {
  import opened Wrappers
  import opened Civil
  import Patterns

  /** Track identifiers of music rows start with this scope; podcast episodes do not. */
  const TrackUriPrefix: string := "spotify:track:"

  /** Plays of at most this many milliseconds are treated as skips. */
  const NoiseFloorMs: int := 10000

  /** One row of the listening history (`ts` read in the service's zone). */
  datatype Event = Event(
    ts: Instant,
    platform: string,
    msPlayed: int,
    country: string,
    track: string,
    artist: string,
    album: string,
    uri: string)

  /** The request filter. Besides the date, search and hour fields of the
      record as declared, it carries the `Artist` and `Track` sub-filters that
      the where-clause builder and the transport layer read. */
  datatype Filters = Filters(
    startDate: Option<DateTime>,
    endDate: Option<DateTime>,
    search: string,
    artist: string,
    track: string,
    startHour: Option<int>,
    endHour: Option<int>)

  /** The selection applied to already-ranked rows. */
  datatype ArtistTrackFilters = ArtistTrackFilters(artist: string, track: string)

  /** A row takes part in any aggregate only if it is a music track played past the noise floor. */
  predicate Eligible(e: Event)
  {
    TrackUriPrefix <= e.uri && e.msPlayed > NoiseFloorMs
  }

  /** `name ILIKE '%term%'`: for a term free of pattern characters this is a
      case-insensitive substring test (see `TermIsSubstring`). */
  predicate Mentions(name: string, term: string)
  {
    Patterns.ILike(name, Patterns.Surround(term))
  }

  lemma TermIsSubstring(name: string, term: string)
    requires Patterns.Literal(term)
    ensures Mentions(name, term) <==> Patterns.Contains(Patterns.Lower(name), Patterns.Lower(term))
  {
    Patterns.ILikeSurroundIsSubstring(name, term);
  }

  /** What a filter means for one event, field by field: the baseline
      eligibility, then each optional bound when it is set. The hour range
      applies only when both ends are set, and does not wrap past midnight. */
  predicate Matches(f: Filters, e: Event)
  {
    && Eligible(e)
    && (f.startDate.Some? ==> AtOrBefore(f.startDate.value, e.ts))
    && (f.endDate.Some? ==> AtOrBefore(e.ts, f.endDate.value))
    && (f.search != "" ==> Mentions(e.artist, f.search) || Mentions(e.album, f.search) || Mentions(e.track, f.search))
    && (f.artist != "" ==> Mentions(e.artist, f.artist))
    && (f.track != "" ==> Mentions(e.track, f.track))
    && (f.startHour.Some? && f.endHour.Some? ==> f.startHour.value <= e.ts.hour <= f.endHour.value)
  }

  /** What a selection means for a ranked row with the given artist and track names. */
  predicate Selects(t: ArtistTrackFilters, artist: string, track: string)
  {
    && (t.artist != "" ==> Mentions(artist, t.artist))
    && (t.track != "" ==> Mentions(track, t.track))
  }
}
