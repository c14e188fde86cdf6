/** The predicate builders of the repository, with the where-clause kept as a
    list of typed condition nodes instead of SQL text. Each node records the
    positional placeholder(s) it binds; `args` is the parallel parameter list,
    where placeholder `$p` is bound to `args[p-1]`. */
module WhereClause {
  import opened Wrappers
  import opened Civil
  import opened Seqs
  import opened Domain
  import Patterns

  datatype BaselineCheck = TrackScope | NoiseFloor

  datatype Cond =
    | Baseline(check: BaselineCheck)   // `spotify_uri LIKE 'spotify:track:%'`, `ms_played > 10000`
    | TsGe(p: int)                     // `ts >= $p`
    | TsLe(p: int)                     // `ts <= $p`
    | SearchAny(p: int)                // `(artist_name ILIKE $p OR album_name ILIKE $p OR track_name ILIKE $p)`
    | ArtistLike(p: int)               // `artist_name ILIKE $p`
    | TrackLike(p: int)                // `track_name ILIKE $p`
    | HourBetween(lo: int, hi: int)    // `EXTRACT(HOUR FROM ts) BETWEEN $lo AND $hi`

  /** A bound parameter value. */
  datatype Arg = TimeArg(t: DateTime) | TextArg(s: string) | IntArg(n: int)

  /** A compiled clause: the conditions, AND-ed, and the parameters they bind. */
  datatype Clause = Clause(conds: seq<Cond>, args: seq<Arg>)

  /** The distinct placeholders a node binds, in the order it binds them. */
  function Uses(c: Cond): seq<int>
  {
    match c
    case Baseline(_) => []
    case TsGe(p) => [p]
    case TsLe(p) => [p]
    case SearchAny(p) => [p]
    case ArtistLike(p) => [p]
    case TrackLike(p) => [p]
    case HourBetween(lo, hi) => [lo, hi]
  }

  /** Every occurrence of a placeholder in the node's SQL text; the search
      node names its single placeholder once per column. */
  function References(c: Cond): seq<int>
  {
    match c
    case SearchAny(p) => [p, p, p]
    case _ => Uses(c)
  }

  /** The placeholders bound by a list of nodes, in order of appearance. */
  function Slots(cs: seq<Cond>): seq<int>
  {
    if |cs| == 0 then [] else Uses(cs[0]) + Slots(cs[1..])
  }

  /** A node's SQL text mentions exactly the placeholders it binds. */
  lemma ReferencesAreUses(c: Cond)
    ensures forall x :: x in References(c) <==> x in Uses(c)
  {
  }

  /** What node `i` binds is among the placeholders of the list. */
  lemma {:induction false} UsesWithinSlots(cs: seq<Cond>, i: nat)
    requires i < |cs|
    ensures forall x :: x in Uses(cs[i]) ==> x in Slots(cs)
  {
    if i > 0 {
      UsesWithinSlots(cs[1..], i - 1);
      assert cs[1..][i - 1] == cs[i];
    }
  }

  /** Every placeholder of the list is bound by one of its nodes. */
  lemma {:induction false} SlotHasNode(cs: seq<Cond>, x: int)
    requires x in Slots(cs)
    ensures exists i :: 0 <= i < |cs| && x in Uses(cs[i])
  {
    if x !in Uses(cs[0]) {
      SlotHasNode(cs[1..], x);
      var i :| 0 <= i < |cs[1..]| && x in Uses(cs[1..][i]);
      assert cs[1..][i] == cs[i + 1];
    }
  }

  lemma {:induction false} SlotsConcat(a: seq<Cond>, b: seq<Cond>)
    ensures Slots(a + b) == Slots(a) + Slots(b)
    decreases |a|
  {
    if |a| == 0 {
      assert a + b == b;
    } else {
      assert (a + b)[0] == a[0] && (a + b)[1..] == a[1..] + b;
      SlotsConcat(a[1..], b);
    }
  }

  // ---------------------------------------------------------------------------
  // Evaluation of a clause against an event (the base filter) or a ranked row
  // (the selection), binding placeholders positionally.

  function Lookup(args: seq<Arg>, p: int): Option<Arg>
  {
    if 1 <= p <= |args| then Some(args[p - 1]) else None
  }

  function TextAt(args: seq<Arg>, p: int): Option<string>
  {
    match Lookup(args, p)
    case Some(TextArg(s)) => Some(s)
    case _ => None
  }

  /** Whether node `c` holds of event `e`. A placeholder that is unbound or
      bound to a value of the wrong kind makes the node false. */
  predicate Holds(c: Cond, args: seq<Arg>, e: Event)
  {
    match c
    case Baseline(TrackScope) => Patterns.Like(e.uri, TrackUriPrefix + "%")
    case Baseline(NoiseFloor) => e.msPlayed > NoiseFloorMs
    case TsGe(p) => Lookup(args, p).Some? && Lookup(args, p).value.TimeArg? && AtOrBefore(Lookup(args, p).value.t, e.ts)
    case TsLe(p) => Lookup(args, p).Some? && Lookup(args, p).value.TimeArg? && AtOrBefore(e.ts, Lookup(args, p).value.t)
    case SearchAny(p) =>
      TextAt(args, p).Some? &&
      (Patterns.ILike(e.artist, TextAt(args, p).value) || Patterns.ILike(e.album, TextAt(args, p).value)
       || Patterns.ILike(e.track, TextAt(args, p).value))
    case ArtistLike(p) => TextAt(args, p).Some? && Patterns.ILike(e.artist, TextAt(args, p).value)
    case TrackLike(p) => TextAt(args, p).Some? && Patterns.ILike(e.track, TextAt(args, p).value)
    case HourBetween(lo, hi) =>
      && Lookup(args, lo).Some? && Lookup(args, lo).value.IntArg?
      && Lookup(args, hi).Some? && Lookup(args, hi).value.IntArg?
      && Lookup(args, lo).value.n <= e.ts.hour <= Lookup(args, hi).value.n
  }

  /** The conjunction of all nodes (an empty list is no `WHERE` at all). */
  predicate HoldsAll(cs: seq<Cond>, args: seq<Arg>, e: Event)
  {
    forall i :: 0 <= i < |cs| ==> Holds(cs[i], args, e)
  }

  /** A conjunction holds when its first node and the rest do. */
  lemma HoldsAllCons(c: Cond, rest: seq<Cond>, args: seq<Arg>, e: Event)
    ensures HoldsAll([c] + rest, args, e) <==> Holds(c, args, e) && HoldsAll(rest, args, e)
  {
    var all := [c] + rest;
    if Holds(c, args, e) && HoldsAll(rest, args, e) {
      forall i | 0 <= i < |all| ensures Holds(all[i], args, e) {
        if i > 0 { assert all[i] == rest[i - 1]; }
      }
    }
    if HoldsAll(all, args, e) {
      assert all[0] == c;
      forall i | 0 <= i < |rest| ensures Holds(rest[i], args, e) {
        assert all[i + 1] == rest[i];
      }
    }
  }

  /** Whether a selection node holds of a ranked row with the given artist and track. */
  predicate HoldsOnRow(c: Cond, args: seq<Arg>, artist: string, track: string)
  {
    match c
    case ArtistLike(p) => TextAt(args, p).Some? && Patterns.ILike(artist, TextAt(args, p).value)
    case TrackLike(p) => TextAt(args, p).Some? && Patterns.ILike(track, TextAt(args, p).value)
    case _ => false
  }

  predicate HoldsAllOnRow(cs: seq<Cond>, args: seq<Arg>, artist: string, track: string)
  {
    forall i :: 0 <= i < |cs| ==> HoldsOnRow(cs[i], args, artist, track)
  }

  /** Only placeholders bound by the node itself are looked up, so binding more
      parameters after them does not change its meaning. */
  lemma HoldsUnderExtension(c: Cond, args: seq<Arg>, more: seq<Arg>, e: Event)
    requires forall p :: p in Uses(c) ==> 1 <= p <= |args|
    ensures Holds(c, args + more, e) <==> Holds(c, args, e)
  {
    forall p | p in Uses(c) ensures Lookup(args + more, p) == Lookup(args, p) {
    }
  }

  // ---------------------------------------------------------------------------
  // The base builder. The source walks the optional fields in a fixed order,
  // and for each one that is set appends a node that binds the current value
  // of its placeholder counter, appends the node's parameters, and advances
  // the counter by their number. Here the six fields are a list of optional
  // `Field`s and the walk is a recursion that threads the counter `p`.

  /** The ordinal of a node kind in the fixed order of the base clause
      (both baselines are 0). */
  function Order(c: Cond): int
  {
    match c
    case Baseline(_) => 0
    case TsGe(_) => 1
    case TsLe(_) => 2
    case SearchAny(_) => 3
    case ArtistLike(_) => 4
    case TrackLike(_) => 5
    case HourBetween(_, _) => 6
  }

  /** The node kinds (as ordinals) occurring in `cs`. */
  function Kinds(cs: seq<Cond>): set<int>
  {
    set i | 0 <= i < |cs| :: Order(cs[i])
  }

  /** An optional field of the filter that is set, with its value. */
  datatype Field =
    | StartBound(t: DateTime)
    | EndBound(t: DateTime)
    | SearchTerm(s: string)
    | ArtistTerm(s: string)
    | TrackTerm(s: string)
    | HourRange(lo: int, hi: int)

  /** The parameters a field binds: the bound itself, a term wrapped as
      `%term%`, or the two ends of the hour range. */
  function Params(fld: Field): (r: seq<Arg>)
    ensures |r| == (if fld.HourRange? then 2 else 1)
  {
    match fld
    case StartBound(t) => [TimeArg(t)]
    case EndBound(t) => [TimeArg(t)]
    case SearchTerm(s) => [TextArg(Patterns.Surround(s))]
    case ArtistTerm(s) => [TextArg(Patterns.Surround(s))]
    case TrackTerm(s) => [TextArg(Patterns.Surround(s))]
    case HourRange(lo, hi) => [IntArg(lo), IntArg(hi)]
  }

  /** The node a field contributes when the counter stands at `p`. */
  function NodeAt(fld: Field, p: int): (c: Cond)
    ensures Uses(c) == Iota(p, |Params(fld)|)
  {
    match fld
    case StartBound(_) => TsGe(p)
    case EndBound(_) => TsLe(p)
    case SearchTerm(_) => SearchAny(p)
    case ArtistTerm(_) => ArtistLike(p)
    case TrackTerm(_) => TrackLike(p)
    case HourRange(_, _) => HourBetween(p, p + 1)
  }

  /** The nodes for the set fields among `cands`, numbered from `p`. */
  function Nodes(cands: seq<Option<Field>>, p: int): seq<Cond>
  {
    if |cands| == 0 then []
    else match cands[0]
      case None => Nodes(cands[1..], p)
      case Some(fld) => [NodeAt(fld, p)] + Nodes(cands[1..], p + |Params(fld)|)
  }

  /** The parameters of the set fields among `cands`, in order. */
  function ArgsOf(cands: seq<Option<Field>>): seq<Arg>
  {
    if |cands| == 0 then []
    else match cands[0]
      case None => ArgsOf(cands[1..])
      case Some(fld) => Params(fld) + ArgsOf(cands[1..])
  }

  /** The set fields among `cands`. */
  function Present(cands: seq<Option<Field>>): (r: seq<Field>)
    ensures |r| <= |cands|
  {
    if |cands| == 0 then []
    else match cands[0]
      case None => Present(cands[1..])
      case Some(fld) => [fld] + Present(cands[1..])
  }

  /** The ordinal of a field's kind in the order the source examines them. */
  function FieldOrder(fld: Field): (r: int)
    ensures 1 <= r <= 6
  {
    match fld
    case StartBound(_) => 1
    case EndBound(_) => 2
    case SearchTerm(_) => 3
    case ArtistTerm(_) => 4
    case TrackTerm(_) => 5
    case HourRange(_, _) => 6
  }

  predicate HasHours(f: Filters)
  {
    f.startHour.Some? && f.endHour.Some?
  }

  /** The six optional fields of `f`, in the order the source examines them;
      the hour range counts as set only when both of its ends are. */
  function Candidates(f: Filters): (r: seq<Option<Field>>)
    ensures |r| == 6
    ensures forall i :: 0 <= i < 6 && r[i].Some? ==> FieldOrder(r[i].value) == i + 1
  {
    [ if f.startDate.Some? then Some(StartBound(f.startDate.value)) else None,
      if f.endDate.Some? then Some(EndBound(f.endDate.value)) else None,
      if f.search != "" then Some(SearchTerm(f.search)) else None,
      if f.artist != "" then Some(ArtistTerm(f.artist)) else None,
      if f.track != "" then Some(TrackTerm(f.track)) else None,
      if HasHours(f) then Some(HourRange(f.startHour.value, f.endHour.value)) else None ]
  }

  function Flag(b: bool): nat
  {
    if b then 1 else 0
  }

  /** The base predicate of every aggregate (`buildWhereClause`): the two
      baseline checks, then the nodes of the set fields numbered from 1. */
  function BuildWhereClause(f: Filters): (c: Clause)
    ensures |c.conds| >= 2 && c.conds[0] == Baseline(TrackScope) && c.conds[1] == Baseline(NoiseFloor)
    ensures Slots(c.conds) == Iota(1, |c.args|)
  {
    var cands := Candidates(f);
    NodesSlots(cands, 1);
    SlotsConcat([Baseline(TrackScope), Baseline(NoiseFloor)], Nodes(cands, 1));
    Clause([Baseline(TrackScope), Baseline(NoiseFloor)] + Nodes(cands, 1), ArgsOf(cands))
  }

  // ---------------------------------------------------------------------------
  // Placeholder numbering, ordering and presence of the base builder.

  /** The nodes bind `p, p+1, …` one per parameter, with no gap or repeat. */
  lemma {:induction false} NodesSlots(cands: seq<Option<Field>>, p: int)
    ensures Slots(Nodes(cands, p)) == Iota(p, |ArgsOf(cands)|)
    decreases |cands|
  {
    if |cands| > 0 {
      NodesSlots(cands[1..], p + Width(cands[0]));
      NodesSlotsStep(cands, p);
    }
  }

  /** The number of parameters an optional field binds. */
  function Width(c: Option<Field>): nat
  {
    if c.Some? then |Params(c.value)| else 0
  }

  /** One step of `NodesSlots`: numbering the first field at `p` and the rest
      from `p` plus its width numbers the whole list from `p`. */
  lemma NodesSlotsStep(cands: seq<Option<Field>>, p: int)
    requires |cands| > 0
    requires Slots(Nodes(cands[1..], p + Width(cands[0]))) == Iota(p + Width(cands[0]), |ArgsOf(cands[1..])|)
    ensures Slots(Nodes(cands, p)) == Iota(p, |ArgsOf(cands)|)
  {
    NodesCons(cands, p);
    if cands[0].Some? {
      NodeThenRest(cands[0].value, Nodes(cands[1..], p + Width(cands[0])), p, |ArgsOf(cands[1..])|);
    }
  }

  /** `Nodes` and `ArgsOf` unfolded once. */
  lemma NodesCons(cands: seq<Option<Field>>, p: int)
    requires |cands| > 0
    ensures Nodes(cands, p) == if cands[0].Some? then [NodeAt(cands[0].value, p)] + Nodes(cands[1..], p + Width(cands[0]))
                               else Nodes(cands[1..], p)
    ensures ArgsOf(cands) == if cands[0].Some? then Params(cands[0].value) + ArgsOf(cands[1..]) else ArgsOf(cands[1..])
    ensures |ArgsOf(cands)| == Width(cands[0]) + |ArgsOf(cands[1..])|
  {
  }

  /** A field's node numbered at `p`, then nodes numbered right after its
      parameters, bind one run of placeholders from `p`. */
  lemma NodeThenRest(fld: Field, rest: seq<Cond>, p: int, n: nat)
    requires Slots(rest) == Iota(p + |Params(fld)|, n)
    ensures Slots([NodeAt(fld, p)] + rest) == Iota(p, |Params(fld)| + n)
  {
    assert ([NodeAt(fld, p)] + rest)[1..] == rest;
    IotaSplit(p, |Params(fld)|, n);
  }

  /** Node `i` is the node of the `i`-th set field. */
  lemma {:induction false} NodesFollowPresent(cands: seq<Option<Field>>, p: int)
    ensures |Nodes(cands, p)| == |Present(cands)|
    ensures forall i :: 0 <= i < |Present(cands)| ==> Order(Nodes(cands, p)[i]) == FieldOrder(Present(cands)[i])
    decreases |cands|
  {
    if |cands| > 0 {
      var q := p + Width(cands[0]);
      NodesFollowPresent(cands[1..], q);
      NodesCons(cands, p);
      if cands[0].Some? {
        var fld := cands[0].value;
        var ns, pr := Nodes(cands[1..], q), Present(cands[1..]);
        assert Present(cands) == [fld] + pr;
        forall i | 0 <= i < |Present(cands)| ensures Order(Nodes(cands, p)[i]) == FieldOrder(Present(cands)[i]) {
          if i > 0 {
            assert Nodes(cands, p)[i] == ns[i - 1];
            assert Present(cands)[i] == pr[i - 1];
          }
        }
      } else {
        assert Present(cands) == Present(cands[1..]);
      }
    }
  }

  lemma {:induction false} PresentMembers(cands: seq<Option<Field>>)
    ensures forall fld :: fld in Present(cands) <==> Some(fld) in cands
    decreases |cands|
  {
    if |cands| > 0 {
      PresentMembers(cands[1..]);
      assert cands == [cands[0]] + cands[1..];
    }
  }

  /** If the candidates' ordinals increase, so do those of the set fields. */
  lemma {:induction false} PresentAscending(cands: seq<Option<Field>>)
    requires forall i, j :: 0 <= i < j < |cands| && cands[i].Some? && cands[j].Some?
               ==> FieldOrder(cands[i].value) < FieldOrder(cands[j].value)
    ensures forall i, j :: 0 <= i < j < |Present(cands)| ==> FieldOrder(Present(cands)[i]) < FieldOrder(Present(cands)[j])
    decreases |cands|
  {
    if |cands| > 0 {
      PresentAscending(cands[1..]);
      PresentMembers(cands[1..]);
      if cands[0].Some? {
        var r := Present(cands);
        forall j | 0 < j < |r| ensures FieldOrder(r[0]) < FieldOrder(r[j]) {
          assert r[j] in Present(cands[1..]);
          var k :| 0 <= k < |cands[1..]| && cands[1..][k] == Some(r[j]);
          assert cands[k + 1] == Some(r[j]);
        }
      }
    }
  }

  lemma {:induction false} ArgsCount(cands: seq<Option<Field>>)
    ensures |ArgsOf(cands)| == if |cands| == 0 then 0
      else (if cands[0].Some? then |Params(cands[0].value)| else 0) + |ArgsOf(cands[1..])|
  {
  }

  /** After the two baselines, the base clause holds one node per set field, in order. */
  lemma BaseNodesFollowFields(f: Filters)
    ensures var c := BuildWhereClause(f); var pr := Present(Candidates(f));
      && |c.conds| == 2 + |pr|
      && forall i :: 2 <= i < |c.conds| ==> Order(c.conds[i]) == FieldOrder(pr[i - 2])
  {
    var cands := Candidates(f);
    var ns := Nodes(cands, 1);
    assert BuildWhereClause(f).conds == [Baseline(TrackScope), Baseline(NoiseFloor)] + ns;
    NodesFollowPresent(cands, 1);
  }

  lemma BaseFieldsAscending(f: Filters)
    ensures forall i, j :: 0 <= i < j < |Present(Candidates(f))| ==>
      FieldOrder(Present(Candidates(f))[i]) < FieldOrder(Present(Candidates(f))[j])
  {
    var cands := Candidates(f);
    forall i, j | 0 <= i < j < |cands| && cands[i].Some? && cands[j].Some?
      ensures FieldOrder(cands[i].value) < FieldOrder(cands[j].value)
    {
      assert FieldOrder(cands[i].value) == i + 1 && FieldOrder(cands[j].value) == j + 1;
    }
    PresentAscending(cands);
    var pr := Present(cands);
    assert Present(Candidates(f)) == pr;
  }

  /** The optional nodes of the base clause come in the fixed order start,
      end, search, artist, track, hours, each at most once. */
  lemma BaseClauseOrder(f: Filters)
    ensures var c := BuildWhereClause(f);
      forall i, j :: 2 <= i < j < |c.conds| ==> 0 < Order(c.conds[i]) < Order(c.conds[j])
  {
    var c := BuildWhereClause(f);
    var cands := Candidates(f);
    var pr := Present(cands);
    BaseNodesFollowFields(f);
    BaseFieldsAscending(f);
    forall i, j | 2 <= i < j < |c.conds| ensures 0 < Order(c.conds[i]) < Order(c.conds[j]) {
      assert Order(c.conds[i]) == FieldOrder(pr[i - 2]);
      assert Order(c.conds[j]) == FieldOrder(pr[j - 2]);
    }
  }

  /** Each optional node kind occurs in the base clause exactly when its field is set. */
  lemma BaseClausePresence(f: Filters)
    ensures var c := BuildWhereClause(f);
      && (1 in Kinds(c.conds) <==> f.startDate.Some?)
      && (2 in Kinds(c.conds) <==> f.endDate.Some?)
      && (3 in Kinds(c.conds) <==> f.search != "")
      && (4 in Kinds(c.conds) <==> f.artist != "")
      && (5 in Kinds(c.conds) <==> f.track != "")
      && (6 in Kinds(c.conds) <==> HasHours(f))
  {
    KindPresentIffSet(f, 1);
    KindPresentIffSet(f, 2);
    KindPresentIffSet(f, 3);
    KindPresentIffSet(f, 4);
    KindPresentIffSet(f, 5);
    KindPresentIffSet(f, 6);
  }

  /** Kind `k` occurs in the base clause exactly when the `k`-th candidate is set. */
  lemma KindPresentIffSet(f: Filters, k: int)
    requires 1 <= k <= 6
    ensures k in Kinds(BuildWhereClause(f).conds) <==> Candidates(f)[k - 1].Some?
  {
    var c := BuildWhereClause(f);
    var cands := Candidates(f);
    var pr := Present(cands);
    BaseNodesFollowFields(f);
    PresentMembers(cands);
    if k in Kinds(c.conds) {
      var i :| 0 <= i < |c.conds| && Order(c.conds[i]) == k;
      assert i >= 2;
      assert pr[i - 2] in pr;
      var j :| 0 <= j < |cands| && cands[j] == Some(pr[i - 2]);
      assert FieldOrder(cands[j].value) == j + 1;
    }
    if cands[k - 1].Some? {
      assert cands[k - 1].value in pr;
      var i :| 0 <= i < |pr| && pr[i] == cands[k - 1].value;
      assert Order(c.conds[i + 2]) == k;
    }
  }

  /** The number of parameters: start, end, search, artist and track bind one
      each when set, the hour range binds two. */
  lemma BaseClauseArgCount(f: Filters)
    ensures |BuildWhereClause(f).args| ==
      Flag(f.startDate.Some?) + Flag(f.endDate.Some?) + Flag(f.search != "")
      + Flag(f.artist != "") + Flag(f.track != "") + 2 * Flag(HasHours(f))
  {
    var cands := Candidates(f);
    SixWidths(cands);
    assert Width(cands[0]) == Flag(f.startDate.Some?);
    assert Width(cands[1]) == Flag(f.endDate.Some?);
    assert Width(cands[2]) == Flag(f.search != "");
    assert Width(cands[3]) == Flag(f.artist != "");
    assert Width(cands[4]) == Flag(f.track != "");
    assert Width(cands[5]) == 2 * Flag(HasHours(f));
  }

  /** The placeholders the SQL text of `cs` mentions. */
  function Mentioned(cs: seq<Cond>): set<int>
  {
    set i, x | 0 <= i < |cs| && x in References(cs[i]) :: x
  }

  /** The placeholders `$1..$n`. */
  function Placeholders(n: nat): (r: set<int>)
    ensures forall k :: k in r <==> 1 <= k <= n
  {
    if n == 0 then {} else Placeholders(n - 1) + {n}
  }

  /** The SQL text is well bound: the placeholders it mentions, the search
      node's three mentions of its one placeholder included, are exactly
      `$1..$n` for the `n` parameters passed. */
  lemma BaseClauseReferencesBound(f: Filters)
    ensures Mentioned(BuildWhereClause(f).conds) == Placeholders(|BuildWhereClause(f).args|)
  {
    var c := BuildWhereClause(f);
    var n := |c.args|;
    forall x | x in Mentioned(c.conds) ensures 1 <= x <= n {
      var i :| 0 <= i < |c.conds| && x in References(c.conds[i]);
      ReferencesAreUses(c.conds[i]);
      UsesWithinSlots(c.conds, i);
      var j :| 0 <= j < n && Iota(1, n)[j] == x;
    }
    forall k | 1 <= k <= n ensures k in Mentioned(c.conds) {
      assert Iota(1, n)[k - 1] == k;
      SlotHasNode(c.conds, k);
      var i :| 0 <= i < |c.conds| && k in Uses(c.conds[i]);
      ReferencesAreUses(c.conds[i]);
    }
  }

  /** Six candidates bind the parameters of each in turn. */
  lemma SixWidths(cands: seq<Option<Field>>)
    requires |cands| == 6
    ensures |ArgsOf(cands)| == Width(cands[0]) + Width(cands[1]) + Width(cands[2])
                              + Width(cands[3]) + Width(cands[4]) + Width(cands[5])
  {
    ArgsCount(cands);
    ArgsCount(cands[1..]);
    ArgsCount(cands[2..]);
    ArgsCount(cands[3..]);
    ArgsCount(cands[4..]);
    ArgsCount(cands[5..]);
    assert cands[6..] == [];
  }

  // ---------------------------------------------------------------------------
  // Meaning: with parameters bound positionally, the compiled base clause
  // holds of an event exactly when the filter matches it.

  /** What a set field demands of an event. */
  predicate Admits(fld: Field, e: Event)
  {
    match fld
    case StartBound(t) => AtOrBefore(t, e.ts)
    case EndBound(t) => AtOrBefore(e.ts, t)
    case SearchTerm(s) => Mentions(e.artist, s) || Mentions(e.album, s) || Mentions(e.track, s)
    case ArtistTerm(s) => Mentions(e.artist, s)
    case TrackTerm(s) => Mentions(e.track, s)
    case HourRange(lo, hi) => lo <= e.ts.hour <= hi
  }

  /** The node of a field, bound to that field's parameters, demands what the field does. */
  lemma NodeMeansField(fld: Field, pre: seq<Arg>, post: seq<Arg>, e: Event)
    ensures Holds(NodeAt(fld, |pre| + 1), pre + Params(fld) + post, e) <==> Admits(fld, e)
  {
    var args := pre + Params(fld) + post;
    assert Lookup(args, |pre| + 1) == Some(Params(fld)[0]);
    if fld.HourRange? {
      assert Lookup(args, |pre| + 2) == Some(Params(fld)[1]);
    }
  }

  /** The nodes of the set fields, bound after `pre`, hold exactly when every set field admits the event. */
  lemma {:induction false} NodesMeanFields(cands: seq<Option<Field>>, pre: seq<Arg>, post: seq<Arg>, e: Event)
    ensures HoldsAll(Nodes(cands, |pre| + 1), pre + ArgsOf(cands) + post, e)
        <==> forall fld :: fld in Present(cands) ==> Admits(fld, e)
    decreases |cands|
  {
    if |cands| > 0 {
      match cands[0]
      case None =>
        UnsetFieldInFront(cands, |pre| + 1);
        NodesMeanFields(cands[1..], pre, post, e);
      case Some(fld) =>
        var rest := Nodes(cands[1..], |pre + Params(fld)| + 1);
        var tail := ArgsOf(cands[1..]);
        SetFieldInFront(cands, fld, pre, post);
        NodesMeanFields(cands[1..], pre + Params(fld), post, e);
        FrontNodeMeansField(fld, rest, pre, tail, post, e);
        AllAdmitCons(fld, Present(cands[1..]), e);
    }
  }

  /** The three lists with an unset field in front. */
  lemma {:induction false} UnsetFieldInFront(cands: seq<Option<Field>>, p: int)
    requires |cands| > 0 && cands[0].None?
    ensures Nodes(cands, p) == Nodes(cands[1..], p)
    ensures ArgsOf(cands) == ArgsOf(cands[1..])
    ensures Present(cands) == Present(cands[1..])
  {
  }

  /** The three lists with a set field in front. */
  lemma {:induction false} SetFieldInFront(cands: seq<Option<Field>>, fld: Field, pre: seq<Arg>, post: seq<Arg>)
    requires |cands| > 0 && cands[0] == Some(fld)
    ensures Nodes(cands, |pre| + 1) == [NodeAt(fld, |pre| + 1)] + Nodes(cands[1..], |pre + Params(fld)| + 1)
    ensures pre + ArgsOf(cands) + post == pre + Params(fld) + ArgsOf(cands[1..]) + post
    ensures Present(cands) == [fld] + Present(cands[1..])
  {
    assert pre + (Params(fld) + ArgsOf(cands[1..])) == pre + Params(fld) + ArgsOf(cands[1..]);
  }

  /** A field's node in front of other nodes, with its parameters bound right
      after `pre`: the conjunction holds when the field admits the event and
      the other nodes hold. */
  lemma FrontNodeMeansField(fld: Field, rest: seq<Cond>, pre: seq<Arg>, tail: seq<Arg>, post: seq<Arg>, e: Event)
    ensures HoldsAll([NodeAt(fld, |pre| + 1)] + rest, pre + Params(fld) + tail + post, e)
        <==> Admits(fld, e) && HoldsAll(rest, pre + Params(fld) + tail + post, e)
  {
    var args := pre + Params(fld) + tail + post;
    assert args == pre + Params(fld) + (tail + post);
    NodeMeansField(fld, pre, tail + post, e);
    HoldsAllCons(NodeAt(fld, |pre| + 1), rest, args, e);
  }

  lemma AllAdmitCons(fld: Field, rest: seq<Field>, e: Event)
    ensures (forall f :: f in [fld] + rest ==> Admits(f, e))
        <==> Admits(fld, e) && forall f :: f in rest ==> Admits(f, e)
  {
    assert fld in [fld] + rest;
    assert forall f :: f in rest ==> f in [fld] + rest;
  }

  lemma TrackScopeIsPrefix(uri: string)
    ensures Patterns.Like(uri, TrackUriPrefix + "%") <==> TrackUriPrefix <= uri
  {
    assert Patterns.Literal(TrackUriPrefix);
    Patterns.PrefixPattern(uri, TrackUriPrefix);
  }

  /** "Every set field admits `e`", read position by position. */
  lemma {:induction false} PresentByIndex(cands: seq<Option<Field>>, e: Event)
    ensures (forall fld :: fld in Present(cands) ==> Admits(fld, e))
        <==> forall i :: 0 <= i < |cands| && cands[i].Some? ==> Admits(cands[i].value, e)
  {
    PresentMembers(cands);
    if forall i :: 0 <= i < |cands| && cands[i].Some? ==> Admits(cands[i].value, e) {
      forall fld | fld in Present(cands) ensures Admits(fld, e) {
        var i :| 0 <= i < |cands| && cands[i] == Some(fld);
      }
    }
    if forall fld :: fld in Present(cands) ==> Admits(fld, e) {
      forall i | 0 <= i < |cands| && cands[i].Some? ensures Admits(cands[i].value, e) {
        assert cands[i] in cands;
      }
    }
  }

  /** `Matches` read field by field over the six candidates. */
  lemma MatchesByFields(f: Filters, e: Event)
    ensures Matches(f, e) <==> Eligible(e) && forall fld :: fld in Present(Candidates(f)) ==> Admits(fld, e)
  {
    var cands := Candidates(f);
    PresentByIndex(cands, e);
    SixByIndex(cands, e);
    MatchesBySlots(f, e);
  }

  /** A property of all six positions, spelt out. */
  lemma SixByIndex(cands: seq<Option<Field>>, e: Event)
    requires |cands| == 6
    ensures (forall i :: 0 <= i < |cands| && cands[i].Some? ==> Admits(cands[i].value, e)) <==>
      && (cands[0].Some? ==> Admits(cands[0].value, e))
      && (cands[1].Some? ==> Admits(cands[1].value, e))
      && (cands[2].Some? ==> Admits(cands[2].value, e))
      && (cands[3].Some? ==> Admits(cands[3].value, e))
      && (cands[4].Some? ==> Admits(cands[4].value, e))
      && (cands[5].Some? ==> Admits(cands[5].value, e))
  {
  }

  /** `Matches` is eligibility and the six candidates' demands. */
  lemma MatchesBySlots(f: Filters, e: Event)
    ensures var cands := Candidates(f);
      Matches(f, e) <==>
        && Eligible(e)
        && (cands[0].Some? ==> Admits(cands[0].value, e))
        && (cands[1].Some? ==> Admits(cands[1].value, e))
        && (cands[2].Some? ==> Admits(cands[2].value, e))
        && (cands[3].Some? ==> Admits(cands[3].value, e))
        && (cands[4].Some? ==> Admits(cands[4].value, e))
        && (cands[5].Some? ==> Admits(cands[5].value, e))
  {
  }

  /** The compiled base clause, evaluated with its own parameters (and any
      parameters bound after them), holds of an event exactly when the filter
      matches it. */
  lemma BaseClauseMeansFilter(f: Filters, post: seq<Arg>, e: Event)
    ensures var c := BuildWhereClause(f);
      HoldsAll(c.conds, c.args + post, e) <==> Matches(f, e)
  {
    var c := BuildWhereClause(f);
    var cands := Candidates(f);
    var ns := Nodes(cands, 1);
    assert c.conds == [Baseline(TrackScope), Baseline(NoiseFloor)] + ns;
    assert c.args + post == [] + ArgsOf(cands) + post;
    NodesMeanFields(cands, [], post, e);
    TrackScopeIsPrefix(e.uri);
    MatchesByFields(f, e);
    assert c.conds == [Baseline(TrackScope)] + ([Baseline(NoiseFloor)] + ns);
    HoldsAllCons(Baseline(TrackScope), [Baseline(NoiseFloor)] + ns, c.args + post, e);
    HoldsAllCons(Baseline(NoiseFloor), ns, c.args + post, e);
  }

  // ---------------------------------------------------------------------------
  // The selection builder (`buildWhereArtistTrackClause`): artist and track
  // sub-filters for already-ranked rows, numbered from a given placeholder.

  function SelectionCandidates(t: ArtistTrackFilters): seq<Option<Field>>
  {
    [ if t.artist != "" then Some(ArtistTerm(t.artist)) else None,
      if t.track != "" then Some(TrackTerm(t.track)) else None ]
  }

  /** The selection clause. An empty node list is the source's empty clause
      with no parameters, which leaves the ranked rows unfiltered. */
  function BuildSelectionClause(t: ArtistTrackFilters, start: int): (c: Clause)
    ensures |c.conds| == 0 <==> t.artist == "" && t.track == ""
    ensures |c.conds| == 0 ==> c.args == []
    // the artist node comes first, then the track node, numbered from `start`
    ensures c.conds == (if t.artist != "" then [ArtistLike(start)] else [])
                     + (if t.track != "" then [TrackLike(start + Flag(t.artist != ""))] else [])
    ensures c.args == (if t.artist != "" then [TextArg(Patterns.Surround(t.artist))] else [])
                    + (if t.track != "" then [TextArg(Patterns.Surround(t.track))] else [])
    ensures Slots(c.conds) == Iota(start, |c.args|)
  {
    var cands := SelectionCandidates(t);
    NodesSlots(cands, start);
    SelectionUnfolds(t, start);
    Clause(Nodes(cands, start), ArgsOf(cands))
  }

  lemma SelectionUnfolds(t: ArtistTrackFilters, start: int)
    ensures Nodes(SelectionCandidates(t), start)
         == (if t.artist != "" then [ArtistLike(start)] else [])
          + (if t.track != "" then [TrackLike(start + Flag(t.artist != ""))] else [])
    ensures ArgsOf(SelectionCandidates(t))
         == (if t.artist != "" then [TextArg(Patterns.Surround(t.artist))] else [])
          + (if t.track != "" then [TextArg(Patterns.Surround(t.track))] else [])
  {
    var cands := SelectionCandidates(t);
    var q := start + Flag(t.artist != "");
    NodesCons(cands, start);
    SelectionTail(t, q);
  }

  /** The second candidate, the track, on its own. */
  lemma SelectionTail(t: ArtistTrackFilters, q: int)
    ensures Nodes(SelectionCandidates(t)[1..], q) == if t.track != "" then [TrackLike(q)] else []
    ensures ArgsOf(SelectionCandidates(t)[1..]) == if t.track != "" then [TextArg(Patterns.Surround(t.track))] else []
  {
    var tail := SelectionCandidates(t)[1..];
    NodesCons(tail, q);
    assert tail[1..] == [];
  }

  /** Where the selection's nodes sit and what their placeholders hold once
      bound after `pre`. */
  lemma SelectionBindings(t: ArtistTrackFilters, pre: seq<Arg>, post: seq<Arg>)
    ensures var c := BuildSelectionClause(t, |pre| + 1);
      var args := pre + c.args + post;
      && (t.artist != "" ==>
            && c.conds[0] == ArtistLike(|pre| + 1)
            && TextAt(args, |pre| + 1) == Some(Patterns.Surround(t.artist)))
      && (t.track != "" ==>
            && c.conds[|c.conds| - 1] == TrackLike(|pre| + 1 + Flag(t.artist != ""))
            && TextAt(args, |pre| + 1 + Flag(t.artist != "")) == Some(Patterns.Surround(t.track)))
      && |c.conds| == Flag(t.artist != "") + Flag(t.track != "")
  {
    var c := BuildSelectionClause(t, |pre| + 1);
    var args := pre + c.args + post;
    if t.artist != "" {
      assert args[|pre|] == c.args[0];
    }
    if t.track != "" {
      assert args[|pre| + Flag(t.artist != "")] == c.args[|c.args| - 1];
    }
  }

  /** Bound after `pre` (the base clause's parameters), the selection holds of
      a ranked row exactly when the row's names satisfy the artist and track
      sub-filters. */
  lemma SelectionMeansTarget(t: ArtistTrackFilters, pre: seq<Arg>, post: seq<Arg>, artist: string, track: string)
    ensures var c := BuildSelectionClause(t, |pre| + 1);
      HoldsAllOnRow(c.conds, pre + c.args + post, artist, track) <==> Selects(t, artist, track)
  {
    var c := BuildSelectionClause(t, |pre| + 1);
    var args := pre + c.args + post;
    SelectionBindings(t, pre, post);
    if Selects(t, artist, track) {
      forall i | 0 <= i < |c.conds| ensures HoldsOnRow(c.conds[i], args, artist, track) {
        if t.artist != "" && i == 0 {
        } else {
          assert i == |c.conds| - 1;
        }
      }
    } else if t.artist != "" && !Mentions(artist, t.artist) {
      assert !HoldsOnRow(c.conds[0], args, artist, track);
    } else {
      assert !HoldsOnRow(c.conds[|c.conds| - 1], args, artist, track);
    }
  }
}
