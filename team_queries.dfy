/** The team queries of `QueryExecutor`: a team's overall, home and away
    record, and the list of all teams. */
module TeamQueries {
  import opened Wrappers
  import opened Text
  import opened Normalization
  import opened Models
  import opened Selection
  import opened Sorting
  import opened MatchQueries

  /** The cap `get_team_statistics` passes to `find_matches_by_team`. */
  const StatisticsLimit: nat := 1000

  /** A record over some matches, as each of the three sub-dicts holds it. */
  datatype Record = Record(matches: nat, wins: nat, draws: nat, losses: nat, goalsFor: int, goalsAgainst: int)

  function RecordOf(r: TeamMatches): Record {
    Record(r.totalMatches, r.wins, r.draws, r.losses, r.goalsFor, r.goalsAgainst)
  }

  /** The dict `get_team_statistics` returns, without the win rates. The
      overall record also carries its goal difference and points. */
  datatype TeamStatistics = TeamStatistics(
    team: string, season: Option<int>, competition: Option<string>,
    overall: Record, goalDifference: int, points: int,
    home: Record, away: Record)

  function Both(season: Option<int>, competition: Option<string>): TeamFilter {
    TeamFilter(season, competition, false, false)
  }

  function HomeOnly(season: Option<int>, competition: Option<string>): TeamFilter {
    TeamFilter(season, competition, true, false)
  }

  function AwayOnly(season: Option<int>, competition: Option<string>): TeamFilter {
    TeamFilter(season, competition, false, true)
  }

  /** `get_team_statistics(team, season, competition)`: the overall, home-only
      and away-only queries, each capped at 1000 matches. */
  method GetTeamStatistics(norm: Normalizer, g: Graph, team: string, season: Option<int>, competition: Option<string>)
    returns (r: TeamStatistics)
    ensures r.team == norm(team) && r.season == season && r.competition == competition
    ensures r.overall == RecordOf(TeamMatchesOf(norm(team), Both(season, competition), g.matches, StatisticsLimit))
    ensures r.home == RecordOf(TeamMatchesOf(norm(team), HomeOnly(season, competition), g.matches, StatisticsLimit))
    ensures r.away == RecordOf(TeamMatchesOf(norm(team), AwayOnly(season, competition), g.matches, StatisticsLimit))
    ensures r.goalDifference == r.overall.goalsFor - r.overall.goalsAgainst
    ensures r.points == 3 * r.overall.wins + r.overall.draws
  {
    var overall := FindMatchesByTeam(norm, g, team, Both(season, competition), StatisticsLimit);
    var home := FindMatchesByTeam(norm, g, team, HomeOnly(season, competition), StatisticsLimit);
    var away := FindMatchesByTeam(norm, g, team, AwayOnly(season, competition), StatisticsLimit);
    r := TeamStatistics(overall.team, season, competition, RecordOf(overall), overall.goalDifference, overall.points,
                        RecordOf(home), RecordOf(away));
  }

  /** When the team never plays itself and the cap cuts nothing, the overall
      record is the sum of the home and the away records. */
  lemma OverallIsHomePlusAway(team: string, season: Option<int>, competition: Option<string>, nodes: seq<MatchRecord>)
    requires forall i :: 0 <= i < |nodes| ==> !(nodes[i].homeTeam == team && nodes[i].awayTeam == team)
    requires Count(nodes, PlaysIn(team, Both(season, competition))) <= StatisticsLimit
    ensures var o, h, a := RecordOf(TeamMatchesOf(team, Both(season, competition), nodes, StatisticsLimit)),
                           RecordOf(TeamMatchesOf(team, HomeOnly(season, competition), nodes, StatisticsLimit)),
                           RecordOf(TeamMatchesOf(team, AwayOnly(season, competition), nodes, StatisticsLimit));
      && o.matches == h.matches + a.matches
      && o.wins == h.wins + a.wins && o.draws == h.draws + a.draws && o.losses == h.losses + a.losses
      && o.goalsFor == h.goalsFor + a.goalsFor && o.goalsAgainst == h.goalsAgainst + a.goalsAgainst
  {
    var e, hp, ap := PlaysIn(team, Both(season, competition)), PlaysIn(team, HomeOnly(season, competition)), PlaysIn(team, AwayOnly(season, competition));
    forall i | 0 <= i < |nodes|
      ensures e(nodes[i]) == (hp(nodes[i]) || ap(nodes[i])) && !(hp(nodes[i]) && ap(nodes[i]))
    {
      assert !(nodes[i].homeTeam == team && nodes[i].awayTeam == team);
    }
    FilterSplit(nodes, e, hp, ap, Wins(team), Scored(team));
    FilterSplit(nodes, e, hp, ap, Losses(team), Conceded(team));
    FilterSplit(nodes, e, hp, ap, IsDraw, Scored(team));
    FilterCount(nodes, e);
    var fe, fh, fa := Filter(nodes, e), Filter(nodes, hp), Filter(nodes, ap);
    assert Select(nodes, e, StatisticsLimit) == fe;
    assert Select(nodes, hp, StatisticsLimit) == fh;
    assert Select(nodes, ap, StatisticsLimit) == fa;
  }

  // ---------------------------------------------------------------------------
  // All teams
  // ---------------------------------------------------------------------------

  /** A row of `get_all_teams`. */
  datatype TeamRow = TeamRow(name: string, state: Option<StateValue>)

  function RowsOf(ts: seq<TeamRecord>): (rows: seq<TeamRow>)
    ensures |rows| == |ts|
    ensures forall i :: 0 <= i < |ts| ==> rows[i] == TeamRow(ts[i].name, ts[i].state)
  {
    if ts == [] then [] else RowsOf(ts[..|ts| - 1]) + [TeamRow(ts[|ts| - 1].name, ts[|ts| - 1].state)]
  }

  /** `ORDER BY t.name`. */
  function ByName(): (TeamRow, TeamRow) -> bool {
    (a: TeamRow, b: TeamRow) => StrLe(a.name, b.name)
  }

  lemma ByNameRanks()
    ensures TotalPreorder(ByName())
  {
    forall a: TeamRow, b: TeamRow
      ensures ByName()(a, b) || ByName()(b, a)
    {
      StrLeTotal(a.name, b.name);
    }
    forall a: TeamRow, b: TeamRow, c: TeamRow | ByName()(a, b) && ByName()(b, c)
      ensures ByName()(a, c)
    {
      StrLeTrans(a.name, b.name, c.name);
    }
  }

  /** `get_all_teams()`: the name and state of every Team node, by name. */
  function GetAllTeams(g: Graph): (rows: seq<TeamRow>)
    ensures |rows| == |g.teams|
    ensures forall i, j :: 0 <= i < j < |rows| ==> StrLe(rows[i].name, rows[j].name)
    ensures multiset(rows) == multiset(RowsOf(g.teams))
  {
    ByNameRanks();
    SortSorted(RowsOf(g.teams), ByName());
    Sort(RowsOf(g.teams), ByName())
  }
}
