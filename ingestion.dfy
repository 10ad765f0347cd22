/** `DataLoader` (database.py): turns the rows of the five match files and of
    the FIFA player file into Team, Match, Player and Competition nodes.

    The graph store is modelled by its contents: Match nodes keyed by id,
    Player nodes keyed by id, Team nodes keyed by name and Competition nodes
    keyed by name, each written with MERGE-then-SET, that is, an upsert.
    CSV reading and date parsing happen before the rows reach this model:
    a row holds the strings `str(row.get(...))` produced and the dates
    `_parse_date` produced. */
module Ingestion {
  import opened Wrappers
  import opened Text
  import opened Normalization
  import opened Models

  // ---------------------------------------------------------------------------
  // Cells and `_safe_int`
  // ---------------------------------------------------------------------------

  /** A numeric CSV cell as pandas hands it over: NaN or absent, a value that
      `int()` converts (to `n`), or a value `int()` rejects. */
  datatype Cell = Missing | Num(n: int) | Unparsable

  /** `_safe_int(value, default)`. */
  function SafeInt(c: Cell, default: int): (r: int)
    ensures c.Num? ==> r == c.n
    ensures !c.Num? ==> r == default
  {
    match c
    case Num(n) => n
    case _ => default
  }

  /** `_safe_int(v) if pd.notna(v) else None`: a missing cell gives None, an
      unparsable one gives 0. */
  function OptionalInt(c: Cell): (r: Option<int>)
    ensures r.None? <==> c.Missing?
    ensures c.Num? ==> r == Some(c.n)
    ensures c.Unparsable? ==> r == Some(0)
  {
    if c.Missing? then None else Some(SafeInt(c, 0))
  }

  // ---------------------------------------------------------------------------
  // The five match sources
  // ---------------------------------------------------------------------------

  datatype Source = BrasileiraoFile | CopaBrasilFile | LibertadoresFile | HistoricalFile | ExtendedFile {

    /** The competition tag passed to `_generate_match_id`. */
    function Tag(): string {
      match this
      case BrasileiraoFile => "Brasileirao"
      case CopaBrasilFile => "CopaBrasil"
      case LibertadoresFile => "Libertadores"
      case HistoricalFile => "BrasHist"
      case ExtendedFile => "Extended"
    }

    /** Whether the loader passes the row's state columns to
        `_get_or_create_team`. */
    predicate PassesStates() {
      this == BrasileiraoFile || this == HistoricalFile
    }
  }

  const Sources: seq<Source> := [BrasileiraoFile, CopaBrasilFile, LibertadoresFile, HistoricalFile, ExtendedFile]

  /** No two loaders share the first five characters of their tag. */
  lemma TagPrefixesDistinct(s1: Source, s2: Source)
    requires s1 != s2
    ensures Take(s1.Tag(), 5) != Take(s2.Tag(), 5)
  {
    var p1, p2 := Take(s1.Tag(), 5), Take(s2.Tag(), 5);
    assert p1[0] == s1.Tag()[0] && p2[0] == s2.Tag()[0];
    assert p1[4] == s1.Tag()[4] && p2[4] == s2.Tag()[4];
  }

  // ---------------------------------------------------------------------------
  // `_generate_match_id`
  // ---------------------------------------------------------------------------

  /** `f"{date_str}_{home_norm}_{away_norm}_{comp_short}"`. */
  function MatchId(norm: Normalizer, date: Option<Timestamp>, home: string, away: string, tag: string): (id: string)
    ensures var d := if date.Some? then CompactDate(date.value) else "unknown";
      |id| >= |d| + 3 && id[..|d|] == d && id[|d|] == '_'
  {
    (if date.Some? then CompactDate(date.value) else "unknown")
    + "_" + Take(norm(home), 10) + "_" + Take(norm(away), 10) + "_" + Take(tag, 5)
  }

  /** The id ends in `_` and the first five characters of the tag. */
  lemma MatchIdSuffix(norm: Normalizer, date: Option<Timestamp>, home: string, away: string, tag: string)
    ensures |MatchId(norm, date, home, away, tag)| > |Take(tag, 5)|
    ensures var id := MatchId(norm, date, home, away, tag);
      id[|id| - |Take(tag, 5)|..] == Take(tag, 5) && id[|id| - |Take(tag, 5)| - 1] == '_'
  {
    var front := (if date.Some? then CompactDate(date.value) else "unknown")
      + "_" + Take(norm(home), 10) + "_" + Take(norm(away), 10) + "_";
    var id := MatchId(norm, date, home, away, tag);
    assert id == front + Take(tag, 5);
    assert id[|front|..] == Take(tag, 5);
  }

  /** Matches loaded from different files never share an id, whatever their
      dates and teams: the ids end in different tag prefixes. */
  lemma MatchIdsOfSourcesDiffer(norm: Normalizer, s1: Source, s2: Source,
                                d1: Option<Timestamp>, h1: string, a1: string,
                                d2: Option<Timestamp>, h2: string, a2: string)
    requires s1 != s2
    ensures MatchId(norm, d1, h1, a1, s1.Tag()) != MatchId(norm, d2, h2, a2, s2.Tag())
  {
    TagPrefixesDistinct(s1, s2);
    MatchIdSuffix(norm, d1, h1, a1, s1.Tag());
    MatchIdSuffix(norm, d2, h2, a2, s2.Tag());
    var id1, id2 := MatchId(norm, d1, h1, a1, s1.Tag()), MatchId(norm, d2, h2, a2, s2.Tag());
    assert |Take(s1.Tag(), 5)| == 5 && |Take(s2.Tag(), 5)| == 5;
    assert id1[|id1| - 5..] != id2[|id2| - 5..];
  }

  /** Within one file the id depends only on the date and on the first ten
      characters of each normalized name, so the ids of two distinct teams
      whose normalized names agree on ten characters coincide, and the later
      match overwrites the earlier one in the store. */
  lemma MatchIdTruncates(norm: Normalizer, d: Option<Timestamp>, h1: string, h2: string, away: string, tag: string)
    requires Take(norm(h1), 10) == Take(norm(h2), 10)
    ensures MatchId(norm, d, h1, away, tag) == MatchId(norm, d, h2, away, tag)
  {
  }

  // ---------------------------------------------------------------------------
  // Tournament keywords of the extended dataset
  // ---------------------------------------------------------------------------

  /** The competition a tournament string of the extended dataset is filed
      under: the "copa"+"brasil" test comes first, then "libertadores",
      and everything else is the league. */
  function CompetitionForTournament(tournament: string): (name: string)
    ensures name == CopaDoBrasil.name
        <==> Contains(Lower(tournament), "copa") && Contains(Lower(tournament), "brasil")
    ensures name == Libertadores.name
        <==> !(Contains(Lower(tournament), "copa") && Contains(Lower(tournament), "brasil"))
             && Contains(Lower(tournament), "libertadores")
    ensures name == Brasileirao.name
        <==> !(Contains(Lower(tournament), "copa") && Contains(Lower(tournament), "brasil"))
             && !Contains(Lower(tournament), "libertadores")
  {
    var t := Lower(tournament);
    if Contains(t, "copa") && Contains(t, "brasil") then CopaDoBrasil.name
    else if Contains(t, "libertadores") then Libertadores.name
    else Brasileirao.name
  }

  // ---------------------------------------------------------------------------
  // Match rows
  // ---------------------------------------------------------------------------

  /** The columns of one CSV row that the loaders read, already projected:
      `home` and `away` are `str(row.get(col, ''))`; `round` and `stadium`
      are `str(v) if pd.notna(v) else None`; the two state cells are
      `row.get(col)` unconverted: None when the column is absent, NaN when
      the cell is empty, its text otherwise; `stats` maps each present
      statistic column to its cell. Which of them a loader uses depends on
      its file. */
  datatype MatchRow = MatchRow(
    date: Option<Timestamp>,
    home: string,
    away: string,
    homeState: Option<StateValue>,
    awayState: Option<StateValue>,
    homeGoals: Cell,
    awayGoals: Cell,
    season: Cell,
    round: Option<string>,
    stadium: Option<string>,
    tournament: string,
    stats: map<string, Cell>)

  /** `if not home or not away: continue`. */
  predicate Loadable(row: MatchRow) {
    row.home != "" && row.away != ""
  }

  /** The statistic columns of the extended dataset. */
  const StatColumns: set<string> :=
    {"home_corner", "away_corner", "home_attack", "away_attack", "home_shots", "away_shots", "total_corners"}

  /** The `statistics` dict of the extended loader: every listed column whose
      cell is present, converted by `_safe_int`. */
  function Statistics(row: MatchRow): (st: map<string, int>)
    ensures forall k :: k in st <==> k in StatColumns && k in row.stats && !row.stats[k].Missing?
    ensures forall k :: k in st ==> st[k] == SafeInt(row.stats[k], 0)
  {
    map k | k in StatColumns && k in row.stats && !row.stats[k].Missing? :: SafeInt(row.stats[k], 0)
  }

  /** The `Match(...)` a loader builds from a loadable row. */
  function BuildMatch(norm: Normalizer, src: Source, row: MatchRow): (m: Match)
    ensures m.id == MatchId(norm, row.date, row.home, row.away, src.Tag())
    ensures m.homeTeam == norm(row.home) && m.awayTeam == norm(row.away)
    ensures m.datetime == row.date
    ensures m.homeGoals == SafeInt(row.homeGoals, 0) && m.awayGoals == SafeInt(row.awayGoals, 0)
    ensures src == ExtendedFile ==> m.competition == CompetitionForTournament(row.tournament)
    ensures src == BrasileiraoFile || src == HistoricalFile ==> m.competition == Brasileirao.name
    ensures src == CopaBrasilFile ==> m.competition == CopaDoBrasil.name
    ensures src == LibertadoresFile ==> m.competition == Libertadores.name
    ensures src != ExtendedFile ==> m.season == OptionalInt(row.season) && m.round == row.round && m.statistics == map[]
    ensures src == ExtendedFile ==> m.season.None? && m.round.None? && m.statistics == Statistics(row)
    ensures m.stadium == if src == HistoricalFile then row.stadium else None
  {
    var competition :=
      match src
      case BrasileiraoFile => Brasileirao.name
      case CopaBrasilFile => CopaDoBrasil.name
      case LibertadoresFile => Libertadores.name
      case HistoricalFile => Brasileirao.name
      case ExtendedFile => CompetitionForTournament(row.tournament);
    var extended := src == ExtendedFile;
    MakeMatch(norm, MatchId(norm, row.date, row.home, row.away, src.Tag()), row.date, row.home, row.away,
              SafeInt(row.homeGoals, 0), SafeInt(row.awayGoals, 0), competition,
              if extended then None else OptionalInt(row.season),
              if extended then None else row.round,
              if src == HistoricalFile then row.stadium else None,
              if extended then Statistics(row) else map[])
  }

  // ---------------------------------------------------------------------------
  // Player rows
  // ---------------------------------------------------------------------------

  /** The columns of a FIFA row that `_load_fifa_players` reads. */
  datatype PlayerRow = PlayerRow(
    id: Cell,
    name: string,
    age: Cell,
    nationality: Option<string>,
    overall: Cell,
    potential: Cell,
    club: Option<string>,
    position: Option<string>)

  /** `if pd.isna(player_id): continue`. */
  predicate HasPlayerId(row: PlayerRow) {
    !row.id.Missing?
  }

  /** `Player(...).to_dict()` for a row with an id. */
  function PlayerOfRow(norm: Normalizer, row: PlayerRow): (p: Player)
    ensures p.id == SafeInt(row.id, 0) && p.name == row.name
    ensures p.age == OptionalInt(row.age) && p.overall == OptionalInt(row.overall)
    ensures p.potential == OptionalInt(row.potential)
    ensures p.nationality == row.nationality && p.position == row.position
    ensures p.club == if row.club.Some? && row.club.value != "" then Some(norm(row.club.value)) else None
    ensures p.jerseyNumber.None? && p.heightCm.None? && p.weightKg.None? && p.preferredFoot.None?
  {
    PlayerToDict(norm, Player(SafeInt(row.id, 0), row.name, OptionalInt(row.age), row.nationality,
                            OptionalInt(row.overall), OptionalInt(row.potential), row.club, row.position,
                            None, None, None, None))
  }

  /** The players of the rows that have an id, in row order. */
  function PlayersOf(norm: Normalizer, rows: seq<PlayerRow>): (ps: seq<Player>)
    ensures |ps| <= |rows|
  {
    if rows == [] then []
    else
      var rest := PlayersOf(norm, rows[..|rows| - 1]);
      var last := rows[|rows| - 1];
      if HasPlayerId(last) then rest + [PlayerOfRow(norm, last)] else rest
  }

  // ---------------------------------------------------------------------------
  // The team cache, as values
  // ---------------------------------------------------------------------------

  /** The fields of a cached `Team` that the loader can change or read. */
  datatype TeamEntry = TeamEntry(name: string, originalNames: set<string>, state: Option<StateValue>)

  /** One call `_get_or_create_team(raw, state)`. */
  datatype Sighting = Sighting(raw: string, state: Option<StateValue>)

  /** The cache after one sighting. The cache is keyed by `norm`, the name
      normalization. A new key gets a Team built from the normalized name,
      and the Team normalizes it again; a known key only gains an original
      name. */
  function Sight(norm: Normalizer, cache: map<string, TeamEntry>, x: Sighting): map<string, TeamEntry> {
    var k := norm(x.raw);
    if k in cache then cache[k := cache[k].(originalNames := cache[k].originalNames + {x.raw})]
    else cache[k := TeamEntry(norm(k), {x.raw}, x.state)]
  }

  /** `_get_or_create_team` returns `normalize(raw)`; afterwards that key is
      cached with `raw` among its original names, a known team keeps its name
      and its state, a new one takes the given state, and no other entry
      changes. */
  lemma SightFacts(norm: Normalizer, cache: map<string, TeamEntry>, x: Sighting)
    ensures var c := Sight(norm, cache, x); var k := norm(x.raw);
      && c.Keys == cache.Keys + {k}
      && x.raw in c[k].originalNames
      && (k in cache ==> c[k] == cache[k].(originalNames := cache[k].originalNames + {x.raw}))
      && (k !in cache ==> c[k] == TeamEntry(norm(norm(x.raw)), {x.raw}, x.state))
      && (forall j :: j in cache && j != k ==> c[j] == cache[j])
  {
  }

  /** The cache after a sequence of sightings, in order. */
  function SightAll(norm: Normalizer, cache: map<string, TeamEntry>, xs: seq<Sighting>): map<string, TeamEntry> {
    if xs == [] then cache else Sight(norm, SightAll(norm, cache, xs[..|xs| - 1]), xs[|xs| - 1])
  }

  lemma {:induction false} SightAllAppend(norm: Normalizer, cache: map<string, TeamEntry>, xs: seq<Sighting>, ys: seq<Sighting>)
    ensures SightAll(norm, cache, xs + ys) == SightAll(norm, SightAll(norm, cache, xs), ys)
    decreases |ys|
  {
    if ys == [] {
      assert xs + ys == xs;
    } else {
      assert (xs + ys)[..|xs + ys| - 1] == xs + ys[..|ys| - 1];
      SightAllAppend(norm, cache, xs, ys[..|ys| - 1]);
    }
  }

  lemma SightAllPair(norm: Normalizer, cache: map<string, TeamEntry>, x: Sighting, y: Sighting)
    ensures SightAll(norm, cache, [x, y]) == Sight(norm, Sight(norm, cache, x), y)
  {
    assert [x, y][..1] == [x];
    assert [x][..0] == [];
    assert SightAll(norm, cache, [x]) == Sight(norm, cache, x);
  }

  /** The normalized names of some sightings: the keys they touch. */
  function KeysOf(norm: Normalizer, xs: seq<Sighting>): set<string> {
    set i | 0 <= i < |xs| :: norm(xs[i].raw)
  }

  /** The cache keys after the sightings are the keys before plus the
      normalized names sighted: `len(self._teams_cache)` counts distinct
      normalized names. */
  lemma {:induction false} SightAllKeys(norm: Normalizer, cache: map<string, TeamEntry>, xs: seq<Sighting>)
    ensures SightAll(norm, cache, xs).Keys == cache.Keys + KeysOf(norm, xs)
    decreases |xs|
  {
    if xs != [] {
      var init := xs[..|xs| - 1];
      SightAllKeys(norm, cache, init);
      SightFacts(norm, SightAll(norm, cache, init), xs[|xs| - 1]);
      assert KeysOf(norm, xs) == KeysOf(norm, init) + {norm(xs[|xs| - 1].raw)} by {
        forall k | k in KeysOf(norm, xs)
          ensures k in KeysOf(norm, init) + {norm(xs[|xs| - 1].raw)}
        {
          var i :| 0 <= i < |xs| && k == norm(xs[i].raw);
          if i < |xs| - 1 {
            assert init[i] == xs[i];
          }
        }
        forall k | k in KeysOf(norm, init)
          ensures k in KeysOf(norm, xs)
        {
          var i :| 0 <= i < |init| && k == norm(init[i].raw);
          assert xs[i] == init[i];
        }
      }
    }
  }

  /** Index of the first sighting of key `k`, if any. */
  function FirstSighting(norm: Normalizer, xs: seq<Sighting>, k: string): (i: nat)
    ensures i <= |xs|
    ensures forall j :: 0 <= j < i ==> norm(xs[j].raw) != k
    ensures i < |xs| ==> norm(xs[i].raw) == k
  {
    if xs == [] then 0
    else if norm(xs[0].raw) == k then 0
    else 1 + FirstSighting(norm, xs[1..], k)
  }

  /** A team's state is the one given at its first sighting, even when that
      was None, and no later sighting changes it. */
  lemma {:induction false} StateOfFirstSighting(norm: Normalizer, cache: map<string, TeamEntry>, xs: seq<Sighting>, k: string)
    requires k !in cache && k in KeysOf(norm, xs)
    ensures k in SightAll(norm, cache, xs)
    ensures FirstSighting(norm, xs, k) < |xs|
    ensures SightAll(norm, cache, xs)[k].state == xs[FirstSighting(norm, xs, k)].state
    decreases |xs|
  {
    SightAllKeys(norm, cache, xs);
    var init, last := xs[..|xs| - 1], xs[|xs| - 1];
    var f := FirstSighting(norm, xs, k);
    SightAllKeys(norm, cache, init);
    SightFacts(norm, SightAll(norm, cache, init), last);
    var i :| 0 <= i < |xs| && k == norm(xs[i].raw);
    FirstSightingOfPrefix(norm, xs, k);
    if k in KeysOf(norm, init) {
      StateOfFirstSighting(norm, cache, init, k);
    } else {
      assert forall j :: 0 <= j < |init| ==> norm(xs[j].raw) != k by {
        forall j | 0 <= j < |init|
          ensures norm(xs[j].raw) != k
        {
          assert init[j] == xs[j];
        }
      }
    }
  }

  /** Once key `k` has been sighted in a prefix, the first sighting does not
      move when the sequence grows. */
  lemma {:induction false} FirstSightingOfPrefix(norm: Normalizer, xs: seq<Sighting>, k: string)
    requires xs != []
    ensures var f := FirstSighting(norm, xs[..|xs| - 1], k);
      f < |xs| - 1 ==> FirstSighting(norm, xs, k) == f
    ensures FirstSighting(norm, xs[..|xs| - 1], k) == |xs| - 1 ==> FirstSighting(norm, xs, k) >= |xs| - 1
    decreases |xs|
  {
    var init := xs[..|xs| - 1];
    if init != [] && norm(xs[0].raw) != k {
      assert xs[1..][..|xs[1..]| - 1] == init[1..];
      FirstSightingOfPrefix(norm, xs[1..], k);
    }
  }

  /** A team already cached keeps its name and its state, whatever is
      sighted later. */
  lemma {:induction false} SightAllKeepsKnown(norm: Normalizer, cache: map<string, TeamEntry>, xs: seq<Sighting>, k: string)
    requires k in cache
    ensures k in SightAll(norm, cache, xs)
    ensures SightAll(norm, cache, xs)[k].name == cache[k].name
    ensures SightAll(norm, cache, xs)[k].state == cache[k].state
    decreases |xs|
  {
    if xs != [] {
      SightAllKeepsKnown(norm, cache, xs[..|xs| - 1], k);
      SightFacts(norm, SightAll(norm, cache, xs[..|xs| - 1]), xs[|xs| - 1]);
    }
  }

  /** The raw spellings sighted under key `k`. */
  function SpellingsOf(norm: Normalizer, xs: seq<Sighting>, k: string): set<string> {
    set i | 0 <= i < |xs| && norm(xs[i].raw) == k :: xs[i].raw
  }

  lemma SpellingsSnoc(norm: Normalizer, xs: seq<Sighting>, k: string)
    requires xs != []
    ensures var init, last := xs[..|xs| - 1], xs[|xs| - 1];
      SpellingsOf(norm, xs, k) == SpellingsOf(norm, init, k) + (if norm(last.raw) == k then {last.raw} else {})
  {
    var init, last := xs[..|xs| - 1], xs[|xs| - 1];
    forall r | r in SpellingsOf(norm, xs, k)
      ensures r in SpellingsOf(norm, init, k) + (if norm(last.raw) == k then {last.raw} else {})
    {
      var i :| 0 <= i < |xs| && norm(xs[i].raw) == k && r == xs[i].raw;
      if i < |init| {
        assert init[i] == xs[i];
      }
    }
    forall r | r in SpellingsOf(norm, init, k)
      ensures r in SpellingsOf(norm, xs, k)
    {
      var i :| 0 <= i < |init| && norm(init[i].raw) == k && r == init[i].raw;
      assert xs[i] == init[i];
    }
  }

  /** A cached team's original names are the ones it had plus exactly the
      raw spellings that normalize to its key. */
  lemma {:induction false} OriginalNamesOfSightings(norm: Normalizer, cache: map<string, TeamEntry>, xs: seq<Sighting>, k: string)
    requires k in cache || k in KeysOf(norm, xs)
    ensures k in SightAll(norm, cache, xs)
    ensures SightAll(norm, cache, xs)[k].originalNames
         == (if k in cache then cache[k].originalNames else {}) + SpellingsOf(norm, xs, k)
    decreases |xs|
  {
    if xs != [] {
      SightAllKeys(norm, cache, xs);
      var init, last := xs[..|xs| - 1], xs[|xs| - 1];
      SightAllKeys(norm, cache, init);
      SightFacts(norm, SightAll(norm, cache, init), last);
      SpellingsSnoc(norm, xs, k);
      if k in cache || k in KeysOf(norm, init) {
        OriginalNamesOfSightings(norm, cache, init, k);
      } else {
        assert SpellingsOf(norm, init, k) == {};
      }
    }
  }

  // ---------------------------------------------------------------------------
  // What one match file contributes
  // ---------------------------------------------------------------------------

  /** The two `_get_or_create_team` calls of one row: the Brasileirao and
      historical loaders pass the state columns, the others pass nothing. */
  function RowSightings(src: Source, row: MatchRow): (xs: seq<Sighting>)
    ensures |xs| == if Loadable(row) then 2 else 0
  {
    if !Loadable(row) then []
    else if src.PassesStates() then [Sighting(row.home, row.homeState), Sighting(row.away, row.awayState)]
    else [Sighting(row.home, None), Sighting(row.away, None)]
  }

  /** An empty state cell is passed on as NaN: a team first seen as the
      home side of such a row in a file with state columns is cached with
      the state NaN, which `_create_teams` then writes to its node. */
  lemma EmptyStateCellReachesTeam(norm: Normalizer, cache: map<string, TeamEntry>, src: Source, row: MatchRow)
    requires src.PassesStates() && Loadable(row) && row.homeState == Some(StateNaN) && norm(row.home) !in cache
    ensures norm(row.home) in SightAll(norm, cache, RowSightings(src, row))
    ensures SightAll(norm, cache, RowSightings(src, row))[norm(row.home)].state == Some(StateNaN)
  {
    var xs := RowSightings(src, row);
    var k := norm(row.home);
    assert k == norm(xs[0].raw);
    StateOfFirstSighting(norm, cache, xs, k);
  }

  /** The team sightings of a whole file, in row order. */
  function FileSightings(src: Source, rows: seq<MatchRow>): seq<Sighting> {
    if rows == [] then [] else FileSightings(src, rows[..|rows| - 1]) + RowSightings(src, rows[|rows| - 1])
  }

  /** The number of loadable rows. */
  function CountLoadable(rows: seq<MatchRow>): nat {
    if rows == [] then 0 else CountLoadable(rows[..|rows| - 1]) + (if Loadable(rows[|rows| - 1]) then 1 else 0)
  }

  /** One `_create_match_node` call: the Match built from `row` by the
      loader of `src`. */
  datatype MatchWrite = MatchWrite(src: Source, row: MatchRow)

  /** The Match writes of a file, in row order: one per loadable row. */
  function FileWrites(src: Source, rows: seq<MatchRow>): (ws: seq<MatchWrite>)
    ensures forall i :: 0 <= i < |ws| ==> ws[i].src == src && Loadable(ws[i].row)
  {
    if rows == [] then []
    else FileWrites(src, rows[..|rows| - 1]) + (if Loadable(rows[|rows| - 1]) then [MatchWrite(src, rows[|rows| - 1])] else [])
  }

  /** One more row extends the count, the sightings and the writes by that
      row's. */
  lemma FileStep(src: Source, rows: seq<MatchRow>, i: nat)
    requires i < |rows|
    ensures CountLoadable(rows[..i + 1]) == CountLoadable(rows[..i]) + if Loadable(rows[i]) then 1 else 0
    ensures FileSightings(src, rows[..i + 1]) == FileSightings(src, rows[..i]) + RowSightings(src, rows[i])
    ensures FileWrites(src, rows[..i + 1])
         == FileWrites(src, rows[..i]) + if Loadable(rows[i]) then [MatchWrite(src, rows[i])] else []
  {
    assert rows[..i + 1][..i] == rows[..i];
  }

  /** The Match a write carries. */
  function WrittenMatch(norm: Normalizer): MatchWrite -> Match {
    (w: MatchWrite) => BuildMatch(norm, w.src, w.row)
  }

  /** The Match nodes after the matches `build` gives for the writes are
      stored in order with MERGE on the id: a later match with the same id
      overwrites an earlier one. */
  function StoreMatches(build: MatchWrite -> Match, nodes: map<string, MatchRecord>, ws: seq<MatchWrite>): map<string, MatchRecord> {
    if ws == [] then nodes
    else
      var m := build(ws[|ws| - 1]);
      StoreMatches(build, nodes, ws[..|ws| - 1])[m.id := MatchToDict(m)]
  }

  /** The Match nodes of the graph after the writes `ws`. */
  function MatchNodes(norm: Normalizer, ws: seq<MatchWrite>): map<string, MatchRecord> {
    StoreMatches(WrittenMatch(norm), map[], ws)
  }

  /** The ids of the written matches. */
  function IdsOf(build: MatchWrite -> Match, ws: seq<MatchWrite>): set<string> {
    set i | 0 <= i < |ws| :: build(ws[i]).id
  }

  /** The count is at most the number of rows and reaches it exactly when
      every row has both team names. */
  lemma {:induction false} CountLoadableBounds(rows: seq<MatchRow>)
    ensures CountLoadable(rows) <= |rows|
    ensures CountLoadable(rows) == |rows| <==> forall i :: 0 <= i < |rows| ==> Loadable(rows[i])
    decreases |rows|
  {
    if rows != [] {
      var init := rows[..|rows| - 1];
      CountLoadableBounds(init);
      assert forall i :: 0 <= i < |init| ==> init[i] == rows[i];
    }
  }

  /** Each counted row sights exactly two teams. */
  lemma {:induction false} SightingsPerCountedRow(src: Source, rows: seq<MatchRow>)
    ensures |FileSightings(src, rows)| == 2 * CountLoadable(rows)
    decreases |rows|
  {
    if rows != [] {
      SightingsPerCountedRow(src, rows[..|rows| - 1]);
    }
  }

  /** Each counted row is written once. */
  lemma {:induction false} WritesPerCountedRow(src: Source, rows: seq<MatchRow>)
    ensures |FileWrites(src, rows)| == CountLoadable(rows)
    decreases |rows|
  {
    if rows != [] {
      WritesPerCountedRow(src, rows[..|rows| - 1]);
    }
  }

  lemma IdsSnoc(build: MatchWrite -> Match, ws: seq<MatchWrite>)
    requires ws != []
    ensures IdsOf(build, ws) == IdsOf(build, ws[..|ws| - 1]) + {build(ws[|ws| - 1]).id}
  {
    var init := ws[..|ws| - 1];
    forall id | id in IdsOf(build, ws)
      ensures id in IdsOf(build, init) + {build(ws[|ws| - 1]).id}
    {
      var i :| 0 <= i < |ws| && id == build(ws[i]).id;
      if i < |init| {
        assert init[i] == ws[i];
      }
    }
    forall id | id in IdsOf(build, init)
      ensures id in IdsOf(build, ws)
    {
      var i :| 0 <= i < |init| && id == build(init[i]).id;
      assert ws[i] == init[i];
    }
  }

  /** The writes add one node per distinct id, holding the last match
      written with it; nodes of other ids are left as they were. */
  lemma {:induction false} StoreMatchesKeys(build: MatchWrite -> Match, nodes: map<string, MatchRecord>, ws: seq<MatchWrite>)
    ensures StoreMatches(build, nodes, ws).Keys == nodes.Keys + IdsOf(build, ws)
    ensures forall id :: id in nodes && id !in IdsOf(build, ws) ==> StoreMatches(build, nodes, ws)[id] == nodes[id]
    decreases |ws|
  {
    if ws != [] {
      var init := ws[..|ws| - 1];
      StoreMatchesKeys(build, nodes, init);
      IdsSnoc(build, ws);
    }
  }

  /** The node of an id holds the last match written with it. */
  lemma {:induction false} StoreMatchesLast(build: MatchWrite -> Match, nodes: map<string, MatchRecord>, ws: seq<MatchWrite>, i: nat)
    requires i < |ws| && forall j :: i < j < |ws| ==> build(ws[j]).id != build(ws[i]).id
    ensures build(ws[i]).id in StoreMatches(build, nodes, ws)
    ensures StoreMatches(build, nodes, ws)[build(ws[i]).id] == MatchToDict(build(ws[i]))
    decreases |ws|
  {
    if i < |ws| - 1 {
      var init := ws[..|ws| - 1];
      assert init[i] == ws[i];
      StoreMatchesLast(build, nodes, init, i);
    }
  }

  /** There are at most as many new nodes as writes. */
  lemma {:induction false} IdsBound(build: MatchWrite -> Match, ws: seq<MatchWrite>)
    ensures |IdsOf(build, ws)| <= |ws|
    decreases |ws|
  {
    if ws != [] {
      IdsBound(build, ws[..|ws| - 1]);
      IdsSnoc(build, ws);
    }
  }

  lemma ConcatAssoc<T>(a: seq<T>, b: seq<T>, c: seq<T>)
    ensures a + (b + c) == (a + b) + c
  {
  }

  lemma PlayersOfSnoc(norm: Normalizer, rows: seq<PlayerRow>, i: nat)
    requires i < |rows|
    ensures PlayersOf(norm, rows[..i + 1])
         == PlayersOf(norm, rows[..i]) + if HasPlayerId(rows[i]) then [PlayerOfRow(norm, rows[i])] else []
  {
    assert rows[..i + 1][..i] == rows[..i];
  }

  // ---------------------------------------------------------------------------
  // Player batches
  // ---------------------------------------------------------------------------

  /** The players in batches of `n`, as `_load_fifa_players` flushes them:
      full batches, then the remainder if there is one. */
  function Chunks(ps: seq<Player>, n: nat): (bs: seq<seq<Player>>)
    requires n > 0
    decreases |ps|
  {
    if ps == [] then []
    else if |ps| <= n then [ps]
    else [ps[..n]] + Chunks(ps[n..], n)
  }

  function Flatten(bs: seq<seq<Player>>): seq<Player> {
    if bs == [] then [] else bs[0] + Flatten(bs[1..])
  }

  /** Every batch is non-empty and has at most `n` players, all but the last
      have exactly `n`, and together they are the players in order. */
  lemma {:induction false} ChunksFacts(ps: seq<Player>, n: nat)
    requires n > 0
    ensures forall i :: 0 <= i < |Chunks(ps, n)| ==> 0 < |Chunks(ps, n)[i]| <= n
    ensures forall i :: 0 <= i < |Chunks(ps, n)| - 1 ==> |Chunks(ps, n)[i]| == n
    ensures Flatten(Chunks(ps, n)) == ps
    decreases |ps|
  {
    if |ps| > n {
      ChunksFacts(ps[n..], n);
      var bs := Chunks(ps, n);
      assert bs[1..] == Chunks(ps[n..], n);
      assert ps[..n] + ps[n..] == ps;
    } else if ps != [] {
      assert [ps][1..] == [];
      assert ps + [] == ps;
    }
  }

  /** Full batches of `n` followed by a remainder of fewer than `n` players
      are what `Chunks` cuts their concatenation into. */
  lemma {:induction false} ChunksOfFull(bs: seq<seq<Player>>, b: seq<Player>, n: nat)
    requires n > 0 && |b| < n
    requires forall i :: 0 <= i < |bs| ==> |bs[i]| == n
    ensures Chunks(Flatten(bs) + b, n) == bs + (if b == [] then [] else [b])
    decreases |bs|
  {
    if bs == [] {
      assert Flatten(bs) + b == b;
    } else {
      var rest := Flatten(bs[1..]) + b;
      assert Flatten(bs) + b == bs[0] + rest;
      ChunksOfFull(bs[1..], b, n);
      if rest == [] {
        assert bs[1..] == [];
        assert bs[0] + rest == bs[0];
      } else {
        assert (bs[0] + rest)[..n] == bs[0];
        assert (bs[0] + rest)[n..] == rest;
        assert bs == [bs[0]] + bs[1..];
      }
    }
  }

  lemma FlattenSnoc(bs: seq<seq<Player>>, b: seq<Player>)
    ensures Flatten(bs + [b]) == Flatten(bs) + b
    decreases |bs|
  {
    if bs == [] {
      assert [b][1..] == [];
      assert b + [] == b;
    } else {
      assert (bs + [b])[1..] == bs[1..] + [b];
      FlattenSnoc(bs[1..], b);
    }
  }

  /** One more player joins the batch: a batch that becomes full moves to
      the full batches, and the players in order are the old ones plus `p`. */
  lemma BatchStep(nodes: map<int, Player>, full: seq<seq<Player>>, batch: seq<Player>, p: Player)
    ensures Flatten(full) + (batch + [p]) == (Flatten(full) + batch) + [p]
    ensures Flatten(full + [batch + [p]]) + [] == (Flatten(full) + batch) + [p]
    ensures |Flatten(full + [batch + [p]])| == |Flatten(full)| + |batch| + 1
    ensures UpsertPlayers(nodes, Flatten(full + [batch + [p]]))
         == UpsertPlayers(UpsertPlayers(nodes, Flatten(full)), batch + [p])
  {
    FlattenSnoc(full, batch + [p]);
    UpsertPlayersAppend(nodes, Flatten(full), batch + [p]);
  }

  /** The Player nodes after `UNWIND ... MERGE` of the players in order. */
  function UpsertPlayers(nodes: map<int, Player>, ps: seq<Player>): map<int, Player> {
    if ps == [] then nodes else UpsertPlayers(nodes, ps[..|ps| - 1])[ps[|ps| - 1].id := ps[|ps| - 1]]
  }

  lemma {:induction false} UpsertPlayersAppend(nodes: map<int, Player>, ps: seq<Player>, qs: seq<Player>)
    ensures UpsertPlayers(nodes, ps + qs) == UpsertPlayers(UpsertPlayers(nodes, ps), qs)
    decreases |qs|
  {
    if qs == [] {
      assert ps + qs == ps;
    } else {
      assert (ps + qs)[..|ps + qs| - 1] == ps + qs[..|qs| - 1];
      UpsertPlayersAppend(nodes, ps, qs[..|qs| - 1]);
    }
  }

  /** Every id written is a node, holding the last player written with it;
      other nodes are left as they were. */
  lemma {:induction false} UpsertPlayersLast(nodes: map<int, Player>, ps: seq<Player>, id: int)
    ensures id in UpsertPlayers(nodes, ps) <==> id in nodes || exists i :: 0 <= i < |ps| && ps[i].id == id
    ensures forall i :: 0 <= i < |ps| && ps[i].id == id && (forall j :: i < j < |ps| ==> ps[j].id != id) ==>
              id in UpsertPlayers(nodes, ps) && UpsertPlayers(nodes, ps)[id] == ps[i]
    ensures (forall i :: 0 <= i < |ps| ==> ps[i].id != id) && id in nodes ==> UpsertPlayers(nodes, ps)[id] == nodes[id]
    decreases |ps|
  {
    if ps != [] {
      var init := ps[..|ps| - 1];
      UpsertPlayersLast(nodes, init, id);
      assert forall i :: 0 <= i < |init| ==> init[i] == ps[i];
    }
  }

  // ---------------------------------------------------------------------------
  // Team and Competition nodes
  // ---------------------------------------------------------------------------

  /** The Team nodes `_create_teams` writes: for each cached key, in insertion
      order, a node named after the cached team's name (MERGE on the name),
      so a later key whose team has the same name overwrites the node. */
  function WrittenTeams(view: map<string, TeamEntry>, order: seq<string>): map<string, TeamEntry>
    requires forall i :: 0 <= i < |order| ==> order[i] in view
  {
    if order == [] then map[]
    else
      var e := view[order[|order| - 1]];
      WrittenTeams(view, order[..|order| - 1])[e.name := e]
  }

  /** One more key written: its team's node replaces any node of that name. */
  lemma WrittenStep(view: map<string, TeamEntry>, order: seq<string>, i: nat)
    requires forall k :: 0 <= k < |order| ==> order[k] in view
    requires i < |order|
    ensures WrittenTeams(view, order[..i + 1]) == WrittenTeams(view, order[..i])[view[order[i]].name := view[order[i]]]
  {
    assert order[..i + 1][..i] == order[..i];
  }

  /** The names of the teams cached under the keys of `order`. */
  function TeamNames(view: map<string, TeamEntry>, order: seq<string>): set<string>
    requires forall i :: 0 <= i < |order| ==> order[i] in view
  {
    set i | 0 <= i < |order| :: view[order[i]].name
  }

  /** The Team node names are the names of the cached teams; there are at
      most as many nodes as cache keys. */
  lemma {:induction false} WrittenTeamsKeys(view: map<string, TeamEntry>, order: seq<string>)
    requires forall i :: 0 <= i < |order| ==> order[i] in view
    ensures WrittenTeams(view, order).Keys == TeamNames(view, order)
    ensures |WrittenTeams(view, order).Keys| <= |order|
    ensures forall n :: n in WrittenTeams(view, order) ==> WrittenTeams(view, order)[n].name == n
    decreases |order|
  {
    if order != [] {
      var init := order[..|order| - 1];
      WrittenTeamsKeys(view, init);
      NamesSnoc(view, order);
    }
  }

  lemma NamesSnoc(view: map<string, TeamEntry>, order: seq<string>)
    requires order != [] && forall i :: 0 <= i < |order| ==> order[i] in view
    ensures var init := order[..|order| - 1];
      TeamNames(view, order)
      == TeamNames(view, init) + {view[order[|order| - 1]].name}
  {
    var init := order[..|order| - 1];
    forall n | n in TeamNames(view, order)
      ensures n in TeamNames(view, init) + {view[order[|order| - 1]].name}
    {
      var i :| 0 <= i < |order| && n == view[order[i]].name;
      if i < |init| {
        assert init[i] == order[i];
      }
    }
    forall n | n in TeamNames(view, init)
      ensures n in TeamNames(view, order)
    {
      var i :| 0 <= i < |init| && n == view[init[i]].name;
      assert order[i] == init[i];
    }
  }

  /** `rec` is `to_dict()` of a team with entry `e`: the same fields, and the
      original names listed once each. */
  ghost predicate Lists(rec: TeamRecord, e: TeamEntry) {
    && rec.name == e.name && rec.state == e.state
    && (forall x :: x in rec.originalNames <==> x in e.originalNames)
    && (forall i, j :: 0 <= i < j < |rec.originalNames| ==> rec.originalNames[i] != rec.originalNames[j])
  }

  /** The Competition nodes after the competitions are written in order. */
  function UpsertCompetitions(nodes: map<string, CompetitionRecord>, cs: seq<Competition>): map<string, CompetitionRecord> {
    if cs == [] then nodes
    else UpsertCompetitions(nodes, cs[..|cs| - 1])[cs[|cs| - 1].name := CompetitionToDict(cs[|cs| - 1])]
  }

  /** The three writes of `_create_competitions`, one after the other. */
  lemma UpsertAllCompetitions(nodes: map<string, CompetitionRecord>)
    ensures UpsertCompetitions(nodes, AllCompetitions)
         == nodes[Brasileirao.name := CompetitionToDict(Brasileirao)]
                 [CopaDoBrasil.name := CompetitionToDict(CopaDoBrasil)]
                 [Libertadores.name := CompetitionToDict(Libertadores)]
  {
    var cs := AllCompetitions;
    assert cs[..1][..0] == [];
    assert cs[..2][..1] == cs[..1];
    assert cs[..3][..2] == cs[..2];
    assert cs[..3] == cs;
    var r1 := nodes[Brasileirao.name := CompetitionToDict(Brasileirao)];
    var r2 := r1[CopaDoBrasil.name := CompetitionToDict(CopaDoBrasil)];
    assert UpsertCompetitions(nodes, cs[..1]) == r1;
    assert UpsertCompetitions(nodes, cs[..2]) == r2;
  }

  /** `_create_competitions` adds exactly three nodes to an empty store, one
      per predefined competition. */
  lemma CompetitionNodes(nodes: map<string, CompetitionRecord>)
    ensures var r := UpsertCompetitions(nodes, AllCompetitions);
      && r.Keys == nodes.Keys + {Brasileirao.name, CopaDoBrasil.name, Libertadores.name}
      && r[Brasileirao.name] == CompetitionToDict(Brasileirao)
      && r[CopaDoBrasil.name] == CompetitionToDict(CopaDoBrasil)
      && r[Libertadores.name] == CompetitionToDict(Libertadores)
      && (nodes == map[] ==> |r| == 3)
  {
    UpsertAllCompetitions(nodes);
    CompetitionNamesDistinct();
    assert Brasileirao.name != CopaDoBrasil.name && CopaDoBrasil.name != Libertadores.name
        && Brasileirao.name != Libertadores.name;
  }

  // ---------------------------------------------------------------------------
  // The loader
  // ---------------------------------------------------------------------------

  /** What the loader has written to the graph: the nodes by key, and the
      player batches in the order they were sent. */
  datatype Store = Store(
    competitions: map<string, CompetitionRecord>,
    teams: map<string, TeamRecord>,
    matchWrites: seq<MatchWrite>,
    players: map<int, Player>,
    playerBatches: seq<seq<Player>>)

  /** The CSV files of the data directory, as rows; None for a missing file. */
  datatype DataFiles = DataFiles(
    brasileirao: Option<seq<MatchRow>>,
    copaBrasil: Option<seq<MatchRow>>,
    libertadores: Option<seq<MatchRow>>,
    historical: Option<seq<MatchRow>>,
    extended: Option<seq<MatchRow>>,
    fifa: Option<seq<PlayerRow>>)
  {
    function MatchFile(src: Source): Option<seq<MatchRow>> {
      match src
      case BrasileiraoFile => brasileirao
      case CopaBrasilFile => copaBrasil
      case LibertadoresFile => libertadores
      case HistoricalFile => historical
      case ExtendedFile => extended
    }
  }

  /** The `stats` dict of `load_all`. */
  datatype LoadStats = LoadStats(teams: nat, players: nat, matches: nat, competitions: nat)

  /** The count a match loader returns. */
  function FileCount(file: Option<seq<MatchRow>>): nat {
    if file.Some? then CountLoadable(file.value) else 0
  }

  /** The sightings of a match file, none when it is missing. */
  function SightingsOf(src: Source, file: Option<seq<MatchRow>>): seq<Sighting> {
    if file.Some? then FileSightings(src, file.value) else []
  }

  /** The Match writes of a match file, none when it is missing. */
  function WritesOf(src: Source, file: Option<seq<MatchRow>>): seq<MatchWrite> {
    if file.Some? then FileWrites(src, file.value) else []
  }

  /** The sightings of the five match files in loading order. */
  function AllSightings(files: DataFiles): seq<Sighting> {
    SightingsOf(BrasileiraoFile, files.brasileirao) + SightingsOf(CopaBrasilFile, files.copaBrasil)
    + SightingsOf(LibertadoresFile, files.libertadores) + SightingsOf(HistoricalFile, files.historical)
    + SightingsOf(ExtendedFile, files.extended)
  }

  /** The Match writes of the five match files in loading order. */
  function AllWrites(files: DataFiles): seq<MatchWrite> {
    WritesOf(BrasileiraoFile, files.brasileirao) + WritesOf(CopaBrasilFile, files.copaBrasil)
    + WritesOf(LibertadoresFile, files.libertadores) + WritesOf(HistoricalFile, files.historical)
    + WritesOf(ExtendedFile, files.extended)
  }

  /** Appending the writes of the five files one after the other appends
      their writes together. */
  lemma WritesInOrder(ws: seq<MatchWrite>, files: DataFiles)
    ensures ws + AllWrites(files)
         == ws + WritesOf(BrasileiraoFile, files.brasileirao) + WritesOf(CopaBrasilFile, files.copaBrasil)
            + WritesOf(LibertadoresFile, files.libertadores) + WritesOf(HistoricalFile, files.historical)
            + WritesOf(ExtendedFile, files.extended)
  {
    var w0, w1, w2 := WritesOf(BrasileiraoFile, files.brasileirao), WritesOf(CopaBrasilFile, files.copaBrasil), WritesOf(LibertadoresFile, files.libertadores);
    var w3, w4 := WritesOf(HistoricalFile, files.historical), WritesOf(ExtendedFile, files.extended);
    ConcatAssoc(ws, w0 + w1 + w2 + w3, w4);
    ConcatAssoc(ws, w0 + w1 + w2, w3);
    ConcatAssoc(ws, w0 + w1, w2);
    ConcatAssoc(ws, w0, w1);
  }

  /** Loading the five files one after the other sights what they sight
      together, in the same order. */
  lemma LoadAllSightings(norm: Normalizer, cache: map<string, TeamEntry>, files: DataFiles)
    ensures var c0 := SightAll(norm, cache, SightingsOf(BrasileiraoFile, files.brasileirao));
      var c1 := SightAll(norm, c0, SightingsOf(CopaBrasilFile, files.copaBrasil));
      var c2 := SightAll(norm, c1, SightingsOf(LibertadoresFile, files.libertadores));
      var c3 := SightAll(norm, c2, SightingsOf(HistoricalFile, files.historical));
      SightAll(norm, cache, AllSightings(files)) == SightAll(norm, c3, SightingsOf(ExtendedFile, files.extended))
  {
    var s0, s1, s2 := SightingsOf(BrasileiraoFile, files.brasileirao), SightingsOf(CopaBrasilFile, files.copaBrasil), SightingsOf(LibertadoresFile, files.libertadores);
    var s3, s4 := SightingsOf(HistoricalFile, files.historical), SightingsOf(ExtendedFile, files.extended);
    SightAllAppend(norm, cache, s0 + s1 + s2 + s3, s4);
    SightAllAppend(norm, cache, s0 + s1 + s2, s3);
    SightAllAppend(norm, cache, s0 + s1, s2);
    SightAllAppend(norm, cache, s0, s1);
  }

  /** The players of the FIFA file, none when it is missing. */
  function PlayersOfFile(norm: Normalizer, file: Option<seq<PlayerRow>>): seq<Player> {
    if file.Some? then PlayersOf(norm, file.value) else []
  }

  /** `batch_size` of `_load_fifa_players`. */
  const BatchSize: nat := 500

  /** `DataLoader`: the team cache (a dict, so its keys keep insertion order,
      kept in `order`) and everything written to the graph. The cache holds
      the fields of each cached Team as a value; nothing outside the loader
      holds these objects. */
  class DataLoader {
    const norm: Normalizer
    var teamsCache: map<string, TeamEntry>
    var order: seq<string>
    var store: Store

    /** `order` lists every cached key exactly once. */
    ghost predicate Valid()
      reads this`teamsCache, this`order
    {
      && (forall k :: k in teamsCache <==> k in order)
      && (forall i, j :: 0 <= i < j < |order| ==> order[i] != order[j])
    }

    /** A new loader, with `norm` the name normalization (`NormalizerOf`
        applied to the transliteration `unidecode` performs). */
    constructor (norm: Normalizer)
      ensures Valid() && this.norm == norm
      ensures teamsCache == map[] && order == []
      ensures store == Store(map[], map[], [], map[], [])
    {
      this.norm := norm;
      teamsCache := map[];
      order := [];
      store := Store(map[], map[], [], map[], []);
    }

    /** `_get_or_create_team(name, state)`: the cache is keyed by the
        normalized name; a new key gets a new Team, a known one gains the
        spelling. */
    method GetOrCreateTeam(name: string, state: Option<StateValue>) returns (normalized: string)
      requires Valid()
      modifies this`teamsCache, this`order
      ensures Valid()
      ensures normalized == norm(name)
      ensures teamsCache == Sight(norm, old(teamsCache), Sighting(name, state))
      ensures order == old(order) + if normalized in old(teamsCache) then [] else [normalized]
    {
      normalized := norm(name);
      if normalized !in teamsCache {
        var team := new Team(norm, normalized, {name}, state, None);
        teamsCache := teamsCache[normalized := TeamEntry(team.name, team.originalNames, team.state)];
        order := order + [normalized];
      } else {
        var e := teamsCache[normalized];
        teamsCache := teamsCache[normalized := e.(originalNames := e.originalNames + {name})];
      }
    }

    /** One `_load_*_matches` loader: a missing file loads nothing and
        returns 0; otherwise every row with both team names sights the two
        teams, writes its Match node and is counted. */
    method LoadMatchFile(src: Source, file: Option<seq<MatchRow>>) returns (count: nat)
      requires Valid()
      modifies this`teamsCache, this`order, this`store
      ensures Valid()
      ensures count == FileCount(file)
      ensures teamsCache == SightAll(norm, old(teamsCache), SightingsOf(src, file))
      ensures store == old(store).(matchWrites := old(store.matchWrites) + WritesOf(src, file))
    {
      count := 0;
      if file.None? {
        return;
      }
      var rows := file.value;
      var i := 0;
      while i < |rows|
        invariant 0 <= i <= |rows|
        invariant Valid()
        invariant count == CountLoadable(rows[..i])
        invariant teamsCache == SightAll(norm, old(teamsCache), FileSightings(src, rows[..i]))
        invariant store.matchWrites == old(store.matchWrites) + FileWrites(src, rows[..i])
        invariant store == old(store).(matchWrites := store.matchWrites)
      {
        FileStep(src, rows, i);
        var loaded := LoadRowAt(src, rows, i, old(teamsCache), old(store.matchWrites));
        if loaded {
          count := count + 1;
        }
        i := i + 1;
      }
      assert rows[..|rows|] == rows;
    }

    /** Row `i` of a file, after the rows before it. */
    method LoadRowAt(src: Source, rows: seq<MatchRow>, i: nat, ghost c0: map<string, TeamEntry>, ghost w0: seq<MatchWrite>)
      returns (loaded: bool)
      requires Valid() && i < |rows|
      requires teamsCache == SightAll(norm, c0, FileSightings(src, rows[..i]))
      requires store.matchWrites == w0 + FileWrites(src, rows[..i])
      modifies this`teamsCache, this`order, this`store
      ensures Valid()
      ensures loaded == Loadable(rows[i])
      ensures teamsCache == SightAll(norm, c0, FileSightings(src, rows[..i + 1]))
      ensures store == old(store).(matchWrites := w0 + FileWrites(src, rows[..i + 1]))
    {
      FileStep(src, rows, i);
      loaded := LoadRow(src, rows[i]);
      SightAllAppend(norm, c0, FileSightings(src, rows[..i]), RowSightings(src, rows[i]));
      ConcatAssoc(w0, FileWrites(src, rows[..i]), if loaded then [MatchWrite(src, rows[i])] else []);
    }

    /** The body of a loader's row loop: a row without both team names is
        skipped; otherwise the home team and then the away team are sighted
        (with their states in the two files that have state columns) and the
        row's Match is written. */
    method LoadRow(src: Source, row: MatchRow) returns (loaded: bool)
      requires Valid()
      modifies this`teamsCache, this`order, this`store
      ensures Valid()
      ensures loaded == Loadable(row)
      ensures teamsCache == SightAll(norm, old(teamsCache), RowSightings(src, row))
      ensures store == old(store).(matchWrites := old(store.matchWrites) + if loaded then [MatchWrite(src, row)] else [])
    {
      loaded := Loadable(row);
      if !loaded {
        return;
      }
      var homeState, awayState := None, None;
      if src.PassesStates() {
        homeState, awayState := row.homeState, row.awayState;
      }
      var home := GetOrCreateTeam(row.home, homeState);
      var away := GetOrCreateTeam(row.away, awayState);
      SightAllPair(norm, old(teamsCache), Sighting(row.home, homeState), Sighting(row.away, awayState));
      store := store.(matchWrites := store.matchWrites + [MatchWrite(src, row)]);
    }

    /** `_create_competitions`: the three competitions are merged in order. */
    method CreateCompetitions()
      modifies this`store
      ensures store == old(store).(competitions := UpsertCompetitions(old(store.competitions), AllCompetitions))
    {
      var i := 0;
      while i < |AllCompetitions|
        invariant 0 <= i <= |AllCompetitions|
        invariant store == old(store).(competitions := UpsertCompetitions(old(store.competitions), AllCompetitions[..i]))
      {
        assert AllCompetitions[..i + 1][..i] == AllCompetitions[..i];
        var c := AllCompetitions[i];
        store := store.(competitions := store.competitions[c.name := CompetitionToDict(c)]);
        i := i + 1;
      }
      assert AllCompetitions[..i] == AllCompetitions;
    }

    /** `_create_teams`: `to_dict()` of every cached team, in insertion
        order, merged on its name. The node of each written name lists the
        fields of the last team written with it, its original names once
        each in some order; other nodes are untouched. */
    method CreateTeams()
      requires Valid()
      modifies this`store
      ensures store.teams.Keys == old(store.teams).Keys + WrittenTeams(teamsCache, order).Keys
      ensures forall n :: n in WrittenTeams(teamsCache, order) ==> Lists(store.teams[n], WrittenTeams(teamsCache, order)[n])
      ensures forall n :: n in old(store.teams) && n !in WrittenTeams(teamsCache, order) ==> store.teams[n] == old(store.teams)[n]
      ensures forall n :: n in old(store.teams) ==> store.teams[n].founded == old(store.teams)[n].founded
      ensures forall n :: n in store.teams && n !in old(store.teams) ==> store.teams[n].founded.None?
      ensures store == old(store).(teams := store.teams)
    {
      var i := 0;
      while i < |order|
        invariant 0 <= i <= |order|
        invariant store.teams.Keys == old(store.teams).Keys + WrittenTeams(teamsCache, order[..i]).Keys
        invariant forall n :: n in WrittenTeams(teamsCache, order[..i]) ==> Lists(store.teams[n], WrittenTeams(teamsCache, order[..i])[n])
        invariant forall n :: n in old(store.teams) && n !in WrittenTeams(teamsCache, order[..i]) ==> store.teams[n] == old(store.teams)[n]
        invariant forall n :: n in old(store.teams) ==> store.teams[n].founded == old(store.teams)[n].founded
        invariant forall n :: n in store.teams && n !in old(store.teams) ==> store.teams[n].founded.None?
        invariant store == old(store).(teams := store.teams)
      {
        WriteTeamAt(i, old(store.teams));
        i := i + 1;
      }
      assert order[..i] == order;
    }

    /** Merging the node of one more team: the nodes written so far, with
        that team's node replacing any node of its name. */
    static lemma ListsMerge(teams: map<string, TeamRecord>, t0: map<string, TeamRecord>, w: map<string, TeamEntry>,
                            e: TeamEntry, rec: TeamRecord, teams1: map<string, TeamRecord>, w1: map<string, TeamEntry>)
      requires teams.Keys == t0.Keys + w.Keys
      requires forall n :: n in w ==> Lists(teams[n], w[n])
      requires forall n :: n in t0 && n !in w ==> teams[n] == t0[n]
      requires Lists(rec, e) && teams1 == teams[e.name := rec] && w1 == w[e.name := e]
      ensures teams1.Keys == t0.Keys + w1.Keys
      ensures forall n :: n in w1 ==> Lists(teams1[n], w1[n])
      ensures forall n :: n in t0 && n !in w1 ==> teams1[n] == t0[n]
    {
      forall n | n in w1
        ensures Lists(teams1[n], w1[n])
      {
        if n != e.name {
          assert w1[n] == w[n];
        }
      }
    }

    /** MERGE on the name with SET of the other properties keeps the
        `founded` a node had, and a new node has none. */
    static lemma FoundedMerge(teams: map<string, TeamRecord>, t0: map<string, TeamRecord>, rec: TeamRecord)
      requires forall n :: n in t0 ==> n in teams && teams[n].founded == t0[n].founded
      requires forall n :: n in teams && n !in t0 ==> teams[n].founded.None?
      requires rec.founded == if rec.name in teams then teams[rec.name].founded else None
      ensures forall n :: n in t0 ==> n in teams[rec.name := rec] && teams[rec.name := rec][n].founded == t0[n].founded
      ensures forall n :: n in teams[rec.name := rec] && n !in t0 ==> teams[rec.name := rec][n].founded.None?
    {
    }

    /** One pass of the `_create_teams` loop: the team cached under
        `order[i]` is merged on its name. */
    method WriteTeamAt(i: nat, ghost t0: map<string, TeamRecord>)
      requires Valid() && i < |order|
      requires store.teams.Keys == t0.Keys + WrittenTeams(teamsCache, order[..i]).Keys
      requires forall n :: n in WrittenTeams(teamsCache, order[..i]) ==> Lists(store.teams[n], WrittenTeams(teamsCache, order[..i])[n])
      requires forall n :: n in t0 && n !in WrittenTeams(teamsCache, order[..i]) ==> store.teams[n] == t0[n]
      requires forall n :: n in t0 ==> n in store.teams && store.teams[n].founded == t0[n].founded
      requires forall n :: n in store.teams && n !in t0 ==> store.teams[n].founded.None?
      modifies this`store
      ensures store.teams.Keys == t0.Keys + WrittenTeams(teamsCache, order[..i + 1]).Keys
      ensures forall n :: n in WrittenTeams(teamsCache, order[..i + 1]) ==> Lists(store.teams[n], WrittenTeams(teamsCache, order[..i + 1])[n])
      ensures forall n :: n in t0 && n !in WrittenTeams(teamsCache, order[..i + 1]) ==> store.teams[n] == t0[n]
      ensures forall n :: n in t0 ==> store.teams[n].founded == t0[n].founded
      ensures forall n :: n in store.teams && n !in t0 ==> store.teams[n].founded.None?
      ensures store == old(store).(teams := store.teams)
    {
      WrittenStep(teamsCache, order, i);
      ghost var w, w1 := WrittenTeams(teamsCache, order[..i]), WrittenTeams(teamsCache, order[..i + 1]);
      var e := teamsCache[order[i]];
      assert w1 == w[e.name := e];
      var names := ListNames(e.originalNames);
      // SET writes the state and the original names; `founded` stays.
      var founded := if e.name in store.teams then store.teams[e.name].founded else None;
      var rec := TeamRecord(e.name, names, e.state, founded);
      assert Lists(rec, e);
      FoundedMerge(store.teams, t0, rec);
      ListsMerge(store.teams, t0, w, e, rec, store.teams[e.name := rec], w1);
      store := store.(teams := store.teams[e.name := rec]);
    }

    /** `_create_player_batch`: one `UNWIND ... MERGE` of the batch. */
    method CreatePlayerBatch(batch: seq<Player>)
      modifies this`store
      ensures store == old(store).(players := UpsertPlayers(old(store.players), batch),
                                   playerBatches := old(store.playerBatches) + [batch])
    {
      store := store.(players := UpsertPlayers(store.players, batch), playerBatches := store.playerBatches + [batch]);
    }

    /** One player of `_load_fifa_players`: the player joins the batch, and
        a batch that reaches 500 players is sent and emptied. `sent` is what
        the count grows by. */
    method AppendToBatch(batch: seq<Player>, p: Player) returns (rest: seq<Player>, sent: nat)
      requires |batch| < BatchSize
      modifies this`store
      ensures |rest| < BatchSize
      ensures |batch| + 1 == BatchSize ==>
        && rest == [] && sent == BatchSize
        && store == old(store).(players := UpsertPlayers(old(store.players), batch + [p]),
                                playerBatches := old(store.playerBatches) + [batch + [p]])
      ensures |batch| + 1 < BatchSize ==> rest == batch + [p] && sent == 0 && store == old(store)
    {
      rest := batch + [p];
      sent := 0;
      if |rest| >= BatchSize {
        CreatePlayerBatch(rest);
        sent := |rest|;
        rest := [];
      }
    }

    /** `_load_fifa_players`: a missing file loads nothing; otherwise the
        players of the rows with an id are sent in batches of 500, then the
        remainder, and the count is the number of players sent. */
    method LoadFifaPlayers(file: Option<seq<PlayerRow>>) returns (count: nat)
      modifies this`store
      ensures count == |PlayersOfFile(norm, file)|
      ensures store == old(store).(players := UpsertPlayers(old(store.players), PlayersOfFile(norm, file)),
                                   playerBatches := old(store.playerBatches) + Chunks(PlayersOfFile(norm, file), BatchSize))
    {
      count := 0;
      if file.None? {
        return;
      }
      ghost var ps := PlayersOfFile(norm, file);
      var batch;
      ghost var full;
      batch, full, count := SendFullBatches(file.value);
      ChunksOfFull(full, batch, BatchSize);
      assert Chunks(ps, BatchSize) == full + (if batch == [] then [] else [batch]);
      if batch != [] {
        CreatePlayerBatch(batch);
        UpsertPlayersAppend(old(store.players), Flatten(full), batch);
        count := count + |batch|;
        assert store.playerBatches == old(store.playerBatches) + Chunks(ps, BatchSize);
        assert store.players == UpsertPlayers(old(store.players), ps);
      } else {
        assert Flatten(full) + batch == Flatten(full);
        assert full + [] == full;
      }
    }

    /** The row loop of `_load_fifa_players`: the full batches `full` have
        been sent, and `batch` holds the remaining players. */
    method SendFullBatches(rows: seq<PlayerRow>) returns (batch: seq<Player>, ghost full: seq<seq<Player>>, count: nat)
      modifies this`store
      ensures |batch| < BatchSize
      ensures forall j :: 0 <= j < |full| ==> |full[j]| == BatchSize
      ensures Flatten(full) + batch == PlayersOf(norm, rows)
      ensures count == |Flatten(full)|
      ensures store == old(store).(players := UpsertPlayers(old(store.players), Flatten(full)),
                                   playerBatches := old(store.playerBatches) + full)
    {
      count := 0;
      batch := [];
      full := [];
      var i := 0;
      while i < |rows|
        invariant 0 <= i <= |rows|
        invariant |batch| < BatchSize
        invariant forall j :: 0 <= j < |full| ==> |full[j]| == BatchSize
        invariant Flatten(full) + batch == PlayersOf(norm, rows[..i])
        invariant count == |Flatten(full)|
        invariant store == old(store).(players := UpsertPlayers(old(store.players), Flatten(full)),
                                       playerBatches := old(store.playerBatches) + full)
      {
        PlayersOfSnoc(norm, rows, i);
        var row := rows[i];
        if HasPlayerId(row) {
          var p := PlayerOfRow(norm, row);
          BatchStep(old(store.players), full, batch, p);
          ghost var grown := batch + [p];
          var sent;
          batch, sent := AppendToBatch(batch, p);
          if sent > 0 {
            full := full + [grown];
          }
          count := count + sent;
        }
        i := i + 1;
      }
      assert rows[..i] == rows;
    }

    /** `load_all`: competitions, the five match files in order, the team
        nodes from the cache, then the players. The team count is the number
        of cache keys, the distinct normalized names sighted, which can
        exceed the number of Team nodes. */
    method LoadAll(files: DataFiles) returns (stats: LoadStats)
      requires Valid()
      modifies this`teamsCache, this`order, this`store
      ensures Valid()
      ensures stats.competitions == 3
      ensures stats.matches == FileCount(files.brasileirao) + FileCount(files.copaBrasil) + FileCount(files.libertadores)
                               + FileCount(files.historical) + FileCount(files.extended)
      ensures teamsCache == SightAll(norm, old(teamsCache), AllSightings(files))
      ensures stats.teams == |teamsCache| == |old(teamsCache).Keys + KeysOf(norm, AllSightings(files))|
      ensures stats.players == |PlayersOfFile(norm, files.fifa)|
      ensures store.competitions == UpsertCompetitions(old(store.competitions), AllCompetitions)
      ensures store.matchWrites == old(store.matchWrites) + AllWrites(files)
      ensures store.teams.Keys == old(store.teams).Keys + WrittenTeams(teamsCache, order).Keys
      ensures forall n :: n in WrittenTeams(teamsCache, order) ==> Lists(store.teams[n], WrittenTeams(teamsCache, order)[n])
      ensures forall n :: n in old(store.teams) && n !in WrittenTeams(teamsCache, order) ==> store.teams[n] == old(store.teams)[n]
      ensures forall n :: n in old(store.teams) ==> store.teams[n].founded == old(store.teams)[n].founded
      ensures forall n :: n in store.teams && n !in old(store.teams) ==> store.teams[n].founded.None?
      ensures store.players == UpsertPlayers(old(store.players), PlayersOfFile(norm, files.fifa))
      ensures store.playerBatches == old(store.playerBatches) + Chunks(PlayersOfFile(norm, files.fifa), BatchSize)
    {
      CreateCompetitions();
      var c0 := LoadMatchFile(BrasileiraoFile, files.brasileirao);
      var c1 := LoadMatchFile(CopaBrasilFile, files.copaBrasil);
      var c2 := LoadMatchFile(LibertadoresFile, files.libertadores);
      var c3 := LoadMatchFile(HistoricalFile, files.historical);
      var c4 := LoadMatchFile(ExtendedFile, files.extended);
      WritesInOrder(old(store.matchWrites), files);
      LoadAllSightings(norm, old(teamsCache), files);
      CreateTeams();
      var teams := |teamsCache|;
      SightAllKeys(norm, old(teamsCache), AllSightings(files));
      var players := LoadFifaPlayers(files.fifa);
      stats := LoadStats(teams, players, c0 + c1 + c2 + c3 + c4, 3);
    }
  }
}
