/** The entity records of models.py: `Team` (a mutable record whose set of
    original names grows), `Match` with its derived `result` and
    `total_goals`, `Player` and `Competition`, and the property dictionaries
    their `to_dict` methods hand to the graph store. */
module Models {
  import opened Wrappers
  import opened Text
  import opened Normalization

  // ---------------------------------------------------------------------------
  // Dates
  // ---------------------------------------------------------------------------

  /** A Python `datetime` as `dateutil`'s parser returns it: naive, or
      aware with a fixed UTC offset in whole minutes (`+HH:MM`, `+HHMM`,
      `Z`), and with microseconds when the text carries a fraction. */
  datatype DateTime = DateTime(year: nat, month: nat, day: nat, hour: nat, minute: nat, second: nat,
                               microsecond: nat, utcOffset: Option<int>) {
    predicate Valid() {
      1 <= year <= 9999 && 1 <= month <= 12 && 1 <= day <= 31
      && hour < 24 && minute < 60 && second < 60 && microsecond < 1000000
      && (utcOffset.Some? ==> -1440 < utcOffset.value < 1440)
    }
  }

  /** The values a `datetime` object can hold. */
  type Timestamp = d: DateTime | d.Valid() witness DateTime(1, 1, 1, 0, 0, 0, 0, None)

  /** `n` in exactly two digits, as `%02d` renders `0 <= n < 100`. */
  function TwoDigits(n: nat): (r: string)
    requires n < 100
    ensures |r| == 2 && IsDigits(r)
  {
    [DigitChar(n / 10), DigitChar(n % 10)]
  }

  /** `n` in exactly four digits, as `%04d` renders `0 <= n < 10000`. */
  function FourDigits(n: nat): (r: string)
    requires n < 10000
    ensures |r| == 4 && IsDigits(r)
  {
    TwoDigits(n / 100) + TwoDigits(n % 100)
  }

  /** `n` in exactly six digits, as `%06d` renders `0 <= n < 1000000`. */
  function SixDigits(n: nat): (r: string)
    requires n < 1000000
    ensures |r| == 6 && IsDigits(r)
  {
    TwoDigits(n / 10000) + FourDigits(n % 10000)
  }

  /** `d.date().isoformat()`: "YYYY-MM-DD". */
  function IsoDate(d: Timestamp): (r: string)
    ensures |r| == 10 && r[4] == '-' && r[7] == '-'
  {
    FourDigits(d.year) + "-" + TwoDigits(d.month) + "-" + TwoDigits(d.day)
  }

  /** The fraction `isoformat()` writes: ".ffffff" unless the microseconds
      are zero. */
  function Fraction(d: Timestamp): (r: string)
    ensures d.microsecond == 0 ==> r == ""
    ensures d.microsecond != 0 ==> |r| == 7 && r[0] == '.' && IsDigits(r[1..])
  {
    if d.microsecond == 0 then "" else "." + SixDigits(d.microsecond)
  }

  /** The offset `isoformat()` writes for an aware datetime: its sign, then
      the hours and minutes of its magnitude as "HH:MM"; nothing for a
      naive one. */
  function OffsetSuffix(d: Timestamp): (r: string)
    ensures d.utcOffset.None? ==> r == ""
    ensures d.utcOffset.Some? ==> |r| == 6 && r[3] == ':'
    ensures d.utcOffset.Some? ==> r[0] == (if d.utcOffset.value < 0 then '-' else '+')
  {
    match d.utcOffset
    case None => ""
    case Some(o) =>
      var m: nat := if o < 0 then -o else o;
      [if o < 0 then '-' else '+'] + TwoDigits(m / 60) + ":" + TwoDigits(m % 60)
  }

  /** `d.isoformat()`: "YYYY-MM-DDTHH:MM:SS", then ".ffffff" when there are
      microseconds and "+HH:MM" when the datetime is aware. It always
      extends the date, and is exactly 19 characters for a naive datetime
      without microseconds. */
  function IsoFormat(d: Timestamp): (r: string)
    ensures |r| == 19 + (if d.microsecond == 0 then 0 else 7) + (if d.utcOffset.None? then 0 else 6)
    ensures r[..10] == IsoDate(d) && r[10] == 'T' && r[13] == ':' && r[16] == ':'
    ensures |r| == 19 <==> d.microsecond == 0 && d.utcOffset.None?
    ensures d.microsecond != 0 ==> r[19] == '.'
    ensures d.utcOffset.Some? ==> r[|r| - 6] == (if d.utcOffset.value < 0 then '-' else '+')
  {
    var head := IsoDate(d) + "T" + Clock(d);
    var tail := Fraction(d) + OffsetSuffix(d);
    assert (head + tail)[..19] == head;
    head + tail
  }

  /** `HH:MM:SS`. */
  function Clock(d: Timestamp): (r: string)
    ensures |r| == 8 && r[2] == ':' && r[5] == ':'
  {
    TwoDigits(d.hour) + ":" + TwoDigits(d.minute) + ":" + TwoDigits(d.second)
  }

  /** `d.strftime("%Y%m%d")`: eight digits. */
  function CompactDate(d: Timestamp): (r: string)
    ensures |r| == 8 && IsDigits(r)
  {
    FourDigits(d.year) + TwoDigits(d.month) + TwoDigits(d.day)
  }

  // ---------------------------------------------------------------------------
  // Team
  // ---------------------------------------------------------------------------

  /** The value a team's `state` holds: the text of a state cell, or the
      float NaN that pandas reads from an empty one. The loaders pass the
      cell on unconverted, so NaN reaches the Team and its node. */
  datatype StateValue = StateText(text: string) | StateNaN

  /** `Team.to_dict()`. */
  datatype TeamRecord = TeamRecord(name: string, originalNames: seq<string>, state: Option<StateValue>, founded: Option<int>)

  /** A team of the knowledge graph. Its name is normalized on construction;
      afterwards only the set of original spellings changes. */
  class Team {
    var name: string
    var originalNames: set<string>
    var state: Option<StateValue>
    var founded: Option<int>

    /** The dataclass constructor followed by `__post_init__`, which replaces
        `name` by its normalized form. */
    constructor (norm: Normalizer, name: string, originalNames: set<string>, state: Option<StateValue>, founded: Option<int>)
      ensures this.name == norm(name)
      ensures this.originalNames == originalNames
      ensures this.state == state && this.founded == founded
    {
      this.name := norm(name);
      this.originalNames := originalNames;
      this.state := state;
      this.founded := founded;
    }

    /** `add_original_name`: the set grows by `n`; nothing else changes. */
    method AddOriginalName(n: string)
      modifies this
      ensures originalNames == old(originalNames) + {n}
      ensures name == old(name) && state == old(state) && founded == old(founded)
    {
      originalNames := originalNames + {n};
    }

    /** `to_dict()`: `list(self.original_names)` lists every original name
        exactly once, in the set's iteration order. */
    method ToDict() returns (r: TeamRecord)
      ensures r.name == name && r.state == state && r.founded == founded
      ensures |r.originalNames| == |originalNames|
      ensures forall x :: x in r.originalNames <==> x in originalNames
      ensures forall i, j :: 0 <= i < j < |r.originalNames| ==> r.originalNames[i] != r.originalNames[j]
    {
      var listed := ListNames(originalNames);
      r := TeamRecord(name, listed, state, founded);
    }
  }

  /** `list(s)` of a set of strings: every element exactly once, in the
      set's iteration order, which the model leaves open. */
  method ListNames(s: set<string>) returns (listed: seq<string>)
    ensures |listed| == |s|
    ensures forall x :: x in listed <==> x in s
    ensures forall i, j :: 0 <= i < j < |listed| ==> listed[i] != listed[j]
  {
    listed := [];
    var rest := s;
    while rest != {}
      invariant rest <= s
      invariant forall x :: x in listed <==> x in s && x !in rest
      invariant |listed| + |rest| == |s|
      invariant forall i, j :: 0 <= i < j < |listed| ==> listed[i] != listed[j]
      decreases |rest|
    {
      var x :| x in rest;
      listed := listed + [x];
      rest := rest - {x};
    }
  }

  // ---------------------------------------------------------------------------
  // Match
  // ---------------------------------------------------------------------------

  datatype MatchResult = HomeWin | AwayWin | Draw {
    /** The string the graph stores. */
    function Label(): (s: string)
      ensures s in {"home_win", "away_win", "draw"}
    {
      match this
      case HomeWin => "home_win"
      case AwayWin => "away_win"
      case Draw => "draw"
    }
  }

  /** A match. `statistics` holds the extended dataset's counters. */
  datatype Match = Match(
    id: string,
    datetime: Option<Timestamp>,
    homeTeam: string,
    awayTeam: string,
    homeGoals: int,
    awayGoals: int,
    competition: string,
    season: Option<int>,
    round: Option<string>,
    stadium: Option<string>,
    statistics: map<string, int>)
  {
    /** The `result` property. */
    function Result(): (r: MatchResult)
      ensures r == HomeWin <==> homeGoals > awayGoals
      ensures r == AwayWin <==> awayGoals > homeGoals
      ensures r == Draw <==> homeGoals == awayGoals
    {
      if homeGoals > awayGoals then HomeWin
      else if awayGoals > homeGoals then AwayWin
      else Draw
    }

    /** The `total_goals` property. */
    function TotalGoals(): int {
      homeGoals + awayGoals
    }
  }

  /** The `Match(...)` constructor followed by `__post_init__`, which replaces
      both team names by their normalized forms. */
  function MakeMatch(norm: Normalizer, id: string, datetime: Option<Timestamp>, homeTeam: string,
                   awayTeam: string, homeGoals: int, awayGoals: int, competition: string,
                   season: Option<int>, round: Option<string>, stadium: Option<string>,
                   statistics: map<string, int>): (m: Match)
    ensures m.homeTeam == norm(homeTeam) && m.awayTeam == norm(awayTeam)
    ensures m.id == id && m.datetime == datetime && m.homeGoals == homeGoals && m.awayGoals == awayGoals
    ensures m.competition == competition && m.season == season && m.round == round
    ensures m.stadium == stadium && m.statistics == statistics
  {
    Match(id, datetime, norm(homeTeam), norm(awayTeam), homeGoals, awayGoals,
          competition, season, round, stadium, statistics)
  }

  /** `Match.to_dict()`: the properties of a Match node. `statistics` is not
      among them. */
  datatype MatchRecord = MatchRecord(
    id: string,
    datetime: Option<string>,
    homeTeam: string,
    awayTeam: string,
    homeGoals: int,
    awayGoals: int,
    competition: string,
    season: Option<int>,
    round: Option<string>,
    stadium: Option<string>,
    result: string,
    totalGoals: int)

  /** `to_dict()`; dates are rendered by `isoformat()`. */
  function MatchToDict(m: Match): (r: MatchRecord)
    ensures r.id == m.id && r.homeTeam == m.homeTeam && r.awayTeam == m.awayTeam
    ensures r.homeGoals == m.homeGoals && r.awayGoals == m.awayGoals
    ensures r.competition == m.competition && r.season == m.season
    ensures r.round == m.round && r.stadium == m.stadium
    ensures r.datetime.None? <==> m.datetime.None?
    ensures m.datetime.Some? ==> |r.datetime.value| >= 19 && r.datetime.value[..10] == IsoDate(m.datetime.value)
    ensures m.datetime.Some? ==> (|r.datetime.value| == 19 <==> m.datetime.value.microsecond == 0 && m.datetime.value.utcOffset.None?)
    ensures r.result == "home_win" <==> m.homeGoals > m.awayGoals
    ensures r.result == "away_win" <==> m.awayGoals > m.homeGoals
    ensures r.result == "draw" <==> m.homeGoals == m.awayGoals
    ensures r.totalGoals == m.homeGoals + m.awayGoals
  {
    MatchRecord(
      m.id,
      if m.datetime.Some? then Some(IsoFormat(m.datetime.value)) else None,
      m.homeTeam, m.awayTeam, m.homeGoals, m.awayGoals, m.competition,
      m.season, m.round, m.stadium, m.Result().Label(), m.TotalGoals())
  }

  // ---------------------------------------------------------------------------
  // Player
  // ---------------------------------------------------------------------------

  /** A FIFA player. `skill_ratings` is never filled in and never stored, so
      it is not part of the record. */
  datatype Player = Player(
    id: int,
    name: string,
    age: Option<int>,
    nationality: Option<string>,
    overall: Option<int>,
    potential: Option<int>,
    club: Option<string>,
    position: Option<string>,
    jerseyNumber: Option<int>,
    heightCm: Option<int>,
    weightKg: Option<int>,
    preferredFoot: Option<string>)

  /** `Player.to_dict()`: every field is copied, except that a non-empty club
      is normalized and an empty one becomes null (`if self.club`). */
  function PlayerToDict(norm: Normalizer, p: Player): (r: Player)
    ensures r.club.None? <==> (p.club.None? || p.club == Some(""))
    ensures r.club.Some? ==> r.club.value == norm(p.club.value)
    ensures r == p.(club := r.club)
  {
    p.(club := if p.club.Some? && p.club.value != "" then Some(norm(p.club.value)) else None)
  }

  // ---------------------------------------------------------------------------
  // Competition
  // ---------------------------------------------------------------------------

  datatype Competition = Competition(name: string, shortName: Option<string>, country: string, competitionType: string)

  /** `Competition.to_dict()` as a record; `shortName` is always present. */
  datatype CompetitionRecord = CompetitionRecord(name: string, shortName: string, country: string, competitionType: string)

  /** `to_dict()`: `short_name or name`, so the stored short name is the
      given one when it is non-empty and the full name otherwise; it is empty
      only when both are. */
  function CompetitionToDict(c: Competition): (r: CompetitionRecord)
    ensures r.name == c.name && r.country == c.country && r.competitionType == c.competitionType
    ensures c.shortName.Some? && c.shortName.value != "" ==> r.shortName == c.shortName.value
    ensures c.shortName.None? || c.shortName == Some("") ==> r.shortName == c.name
    ensures r.shortName == "" <==> c.name == "" && c.shortName.GetOr("") == ""
  {
    var short := c.shortName.GetOr("");
    CompetitionRecord(c.name, if short != "" then short else c.name, c.country, c.competitionType)
  }

  const Brasileirao := Competition("Brasileirao Serie A", Some("Brasileirao"), "Brazil", "league")
  const CopaDoBrasil := Competition("Copa do Brasil", Some("Copa do Brasil"), "Brazil", "cup")
  const Libertadores := Competition("Copa Libertadores", Some("Libertadores"), "International", "cup")

  /** The three competitions of the graph. */
  const AllCompetitions: seq<Competition> := [Brasileirao, CopaDoBrasil, Libertadores]

  /** The three predefined competitions have distinct names, so the three
      `MERGE`s in `_create_competitions` create three nodes. */
  lemma CompetitionNamesDistinct()
    ensures forall i, j :: 0 <= i < j < |AllCompetitions| ==> AllCompetitions[i].name != AllCompetitions[j].name
  {
  }
}
