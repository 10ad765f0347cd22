/** The statistical queries of `QueryExecutor`: the biggest wins, a
    league's aggregate statistics and the top-scoring teams. */
module Analytics {
  import opened Wrappers
  import opened Text
  import opened Models
  import opened Selection
  import opened Sorting
  import opened CompetitionQueries

  /** The optional competition and season conditions shared by the
      biggest-wins and top-scorers queries. */
  predicate Chosen(competition: Option<string>, season: Option<int>, m: MatchRecord) {
    CompetitionOk(competition, m) && SeasonOk(season, m)
  }

  function ChosenBy(competition: Option<string>, season: Option<int>): MatchRecord -> bool {
    m => Chosen(competition, season, m)
  }

  // ---------------------------------------------------------------------------
  // Biggest wins
  // ---------------------------------------------------------------------------

  /** `abs(m.home_goals - m.away_goals)`. */
  function Margin(m: MatchRecord): nat {
    if m.homeGoals >= m.awayGoals then m.homeGoals - m.awayGoals else m.awayGoals - m.homeGoals
  }

  /** The WHERE clauses of `get_biggest_wins`: the chosen matches that have
      a winner. */
  predicate IsWin(competition: Option<string>, season: Option<int>, m: MatchRecord) {
    Chosen(competition, season, m) && Margin(m) > 0
  }

  function IsWinBy(competition: Option<string>, season: Option<int>): MatchRecord -> bool {
    m => IsWin(competition, season, m)
  }

  /** `ORDER BY goal_diff DESC, m.total_goals DESC`. */
  predicate Bigger(a: MatchRecord, b: MatchRecord) {
    Margin(a) > Margin(b) || (Margin(a) == Margin(b) && a.totalGoals >= b.totalGoals)
  }

  function ByMargin(): (MatchRecord, MatchRecord) -> bool {
    (a: MatchRecord, b: MatchRecord) => Bigger(a, b)
  }

  lemma ByMarginOrders()
    ensures TotalPreorder(ByMargin())
  {
    assert forall a, b :: ByMargin()(a, b) == Bigger(a, b);
  }

  /** The matches the query returns. */
  function BiggestWinMatches(competition: Option<string>, season: Option<int>, nodes: seq<MatchRecord>, limit: nat): seq<MatchRecord> {
    Limit(Sort(Filter(nodes, IsWinBy(competition, season)), ByMargin()), limit)
  }

  /** One dict of the `matches` list. */
  datatype WinRow = WinRow(
    datetime: Option<string>, winner: string, loser: string, score: string,
    goalDifference: int, competition: string, season: Option<int>)

  /** The row the formatting loop builds from a returned match. */
  function WinRowOf(m: MatchRecord): WinRow {
    var hg, ag := m.homeGoals, m.awayGoals;
    var homeWon := hg > ag;
    WinRow(m.datetime,
      if homeWon then m.homeTeam else m.awayTeam,
      if homeWon then m.awayTeam else m.homeTeam,
      IntToString(if hg >= ag then hg else ag) + "-" + IntToString(if hg <= ag then hg else ag),
      Margin(m), m.competition, m.season)
  }

  /** The dict `get_biggest_wins` returns. */
  datatype BiggestWins = BiggestWins(total: nat, matches: seq<WinRow>)

  function BiggestWinsOf(competition: Option<string>, season: Option<int>, nodes: seq<MatchRecord>, limit: nat): BiggestWins {
    var ms := BiggestWinMatches(competition, season, nodes, limit);
    BiggestWins(|ms|, seq(|ms|, k requires 0 <= k < |ms| => WinRowOf(ms[k])))
  }

  /** `get_biggest_wins(competition, season, limit)`: the query, then the
      loop that turns each returned match into a row. */
  method GetBiggestWins(g: Graph, competition: Option<string>, season: Option<int>, limit: nat) returns (r: BiggestWins)
    ensures r == BiggestWinsOf(competition, season, g.matches, limit)
  {
    var results := BiggestWinMatches(competition, season, g.matches, limit);
    var matches := FormatWins(results);
    r := BiggestWins(|matches|, matches);
  }

  /** The formatting loop of `get_biggest_wins`. */
  method FormatWins(results: seq<MatchRecord>) returns (matches: seq<WinRow>)
    ensures matches == seq(|results|, k requires 0 <= k < |results| => WinRowOf(results[k]))
  {
    matches := [];
    var i := 0;
    while i < |results|
      invariant 0 <= i <= |results|
      invariant |matches| == i
      invariant forall k :: 0 <= k < i ==> matches[k] == WinRowOf(results[k])
    {
      var row := FormatWin(results[i]);
      matches := matches + [row];
      i := i + 1;
    }
  }

  /** The body of the formatting loop: one returned match as a row. */
  method FormatWin(m: MatchRecord) returns (row: WinRow)
    ensures row == WinRowOf(m)
  {
    var hg, ag := m.homeGoals, m.awayGoals;
    var winner := if hg > ag then m.homeTeam else m.awayTeam;
    var loser := if hg > ag then m.awayTeam else m.homeTeam;
    var winnerGoals := if hg >= ag then hg else ag;
    var loserGoals := if hg <= ag then hg else ag;
    row := WinRow(m.datetime, winner, loser,
      IntToString(winnerGoals) + "-" + IntToString(loserGoals), Margin(m), m.competition, m.season);
  }

  /** Each row describes a returned win: a chosen match of the graph whose
      winner is the side that scored more, with the margin as its goal
      difference and the score written winner's goals first. */
  lemma BiggestWinsRows(competition: Option<string>, season: Option<int>, nodes: seq<MatchRecord>, limit: nat)
    ensures var r := BiggestWinsOf(competition, season, nodes, limit);
      r.total == |r.matches| <= limit
    ensures forall k :: 0 <= k < |BiggestWinsOf(competition, season, nodes, limit).matches| ==>
      var m, row := BiggestWinMatches(competition, season, nodes, limit)[k], BiggestWinsOf(competition, season, nodes, limit).matches[k];
      && m in nodes && Chosen(competition, season, m)
      && row.goalDifference > 0
      && ((row.winner == m.homeTeam && row.loser == m.awayTeam && m.homeGoals == m.awayGoals + row.goalDifference
          && row.score == IntToString(m.homeGoals) + "-" + IntToString(m.awayGoals))
       || (row.winner == m.awayTeam && row.loser == m.homeTeam && m.awayGoals == m.homeGoals + row.goalDifference
          && row.score == IntToString(m.awayGoals) + "-" + IntToString(m.homeGoals)))
      && row.datetime == m.datetime && row.competition == m.competition && row.season == m.season
  {
    var sel := Filter(nodes, IsWinBy(competition, season));
    var ms := BiggestWinMatches(competition, season, nodes, limit);
    var rows := BiggestWinsOf(competition, season, nodes, limit).matches;
    forall k | 0 <= k < |rows|
      ensures var m, row := ms[k], rows[k];
        && m in nodes && Chosen(competition, season, m)
        && row.goalDifference > 0
        && ((row.winner == m.homeTeam && row.loser == m.awayTeam && m.homeGoals == m.awayGoals + row.goalDifference
            && row.score == IntToString(m.homeGoals) + "-" + IntToString(m.awayGoals))
         || (row.winner == m.awayTeam && row.loser == m.homeTeam && m.awayGoals == m.homeGoals + row.goalDifference
            && row.score == IntToString(m.awayGoals) + "-" + IntToString(m.homeGoals)))
        && row.datetime == m.datetime && row.competition == m.competition && row.season == m.season
    {
      assert ms[k] in multiset(Sort(sel, ByMargin()));
      assert ms[k] in sel;
      assert rows[k] == WinRowOf(ms[k]);
    }
  }

  /** The rows come by goal difference, largest first, and among equal
      differences by the matches' total goals, largest first. */
  lemma BiggestWinsOrdered(competition: Option<string>, season: Option<int>, nodes: seq<MatchRecord>, limit: nat)
    ensures var rows, ms := BiggestWinsOf(competition, season, nodes, limit).matches, BiggestWinMatches(competition, season, nodes, limit);
      forall i, j :: 0 <= i < j < |rows| ==>
        rows[i].goalDifference > rows[j].goalDifference
        || (rows[i].goalDifference == rows[j].goalDifference && ms[i].totalGoals >= ms[j].totalGoals)
  {
    ByMarginOrders();
    TopOfSorted(Filter(nodes, IsWinBy(competition, season)), ByMargin(), limit);
    var ms := BiggestWinMatches(competition, season, nodes, limit);
    assert forall i, j :: 0 <= i < j < |ms| ==> Bigger(ms[i], ms[j]);
  }

  /** A 3-0 home win is reported as won by the home side, "3-0", by three. */
  lemma ThreeNilExample(m: MatchRecord)
    requires m.homeTeam == "A" && m.awayTeam == "B" && m.homeGoals == 3 && m.awayGoals == 0
    ensures WinRowOf(m).winner == "A" && WinRowOf(m).loser == "B"
    ensures WinRowOf(m).score == "3-0" && WinRowOf(m).goalDifference == 3
  {
    assert IntToString(3) == "3" && IntToString(0) == "0";
  }

  /** No chosen win left out has a larger difference than a row returned;
      when fewer than `limit` rows come back, every chosen win is among
      them. */
  lemma BiggestWinsTop(competition: Option<string>, season: Option<int>, nodes: seq<MatchRecord>, limit: nat)
    ensures forall m, k ::
      (m in nodes && IsWin(competition, season, m) && m !in BiggestWinMatches(competition, season, nodes, limit)
       && 0 <= k < |BiggestWinsOf(competition, season, nodes, limit).matches|) ==>
      Margin(m) <= BiggestWinsOf(competition, season, nodes, limit).matches[k].goalDifference
    ensures |BiggestWinMatches(competition, season, nodes, limit)| < limit ==>
      forall m :: m in nodes && IsWin(competition, season, m) ==> m in BiggestWinMatches(competition, season, nodes, limit)
  {
    var sel := Filter(nodes, IsWinBy(competition, season));
    ByMarginOrders();
    TopOfSorted(sel, ByMargin(), limit);
    var ms := BiggestWinMatches(competition, season, nodes, limit);
    if |ms| < limit {
      forall m | m in nodes && IsWin(competition, season, m)
        ensures m in ms
      {
        assert m in sel;
        assert m in multiset(Sort(sel, ByMargin()));
      }
    }
  }

  // ---------------------------------------------------------------------------
  // League statistics
  // ---------------------------------------------------------------------------

  /** The WHERE clause of `get_league_statistics`: the competition always,
      the season when given. */
  predicate InLeague(competition: string, season: Option<int>, m: MatchRecord) {
    Contains(m.competition, competition) && SeasonOk(season, m)
  }

  function InLeagueBy(competition: string, season: Option<int>): MatchRecord -> bool {
    m => InLeague(competition, season, m)
  }

  function HomeWin(): MatchRecord -> bool { (m: MatchRecord) => m.homeGoals > m.awayGoals }
  function AwayWin(): MatchRecord -> bool { (m: MatchRecord) => m.awayGoals > m.homeGoals }
  function Draw(): MatchRecord -> bool { (m: MatchRecord) => m.homeGoals == m.awayGoals }

  /** The integer fields of the dict `get_league_statistics` returns. */
  datatype LeagueStats = LeagueStats(
    competition: string, season: Option<int>, totalMatches: nat, totalGoals: int,
    homeWins: nat, awayWins: nat, draws: nat)

  /** `get_league_statistics(competition, season)`. The aggregate always
      returns one row, so the `No data found` branch is never taken: with
      no match the average is null and rounding it fails, which is the
      error here. */
  function GetLeagueStatistics(g: Graph, competition: string, season: Option<int>): (r: Result<LeagueStats, string>)
    ensures r.Err? <==> forall i :: 0 <= i < |g.matches| ==> !InLeague(competition, season, g.matches[i])
    ensures r.Ok? ==> r.value.competition == competition && r.value.season == season
  {
    var sel := Filter(g.matches, InLeagueBy(competition, season));
    if sel == [] then
      assert forall i :: 0 <= i < |g.matches| ==> !InLeagueBy(competition, season)(g.matches[i]);
      Err("avg_goals_per_match is null")
    else
      assert InLeague(competition, season, sel[0]);
      Ok(LeagueStats(competition, season, |sel|, Sum(sel, Goals), Count(sel, HomeWin()), Count(sel, AwayWin()), Count(sel, Draw())))
  }

  /** A count over the selected matches is a count over the graph of the
      matches both selected and counted. */
  lemma {:induction false} CountFiltered(s: seq<MatchRecord>, p: MatchRecord -> bool, q: MatchRecord -> bool)
    ensures Count(Filter(s, p), q) == Count(s, (m: MatchRecord) => p(m) && q(m))
    decreases |s|
  {
    if s != [] {
      var init, m := s[..|s| - 1], s[|s| - 1];
      CountFiltered(init, p, q);
      var fi := Filter(init, p);
      if p(m) {
        assert (fi + [m])[..|fi|] == fi;
      }
    }
  }

  /** Every selected match is a home win, an away win or a draw, so the
      three counts add up to the total; each count and the goals total are
      those of the whole graph restricted to the league, and there is at
      least one match. */
  lemma LeagueStatisticsCounts(g: Graph, competition: string, season: Option<int>)
    ensures var r := GetLeagueStatistics(g, competition, season);
      r.Ok? ==>
        && r.value.totalMatches > 0
        && r.value.homeWins + r.value.awayWins + r.value.draws == r.value.totalMatches
        && r.value.totalMatches == Count(g.matches, InLeagueBy(competition, season))
        && r.value.homeWins == Count(g.matches, (m: MatchRecord) => InLeague(competition, season, m) && m.homeGoals > m.awayGoals)
        && r.value.awayWins == Count(g.matches, (m: MatchRecord) => InLeague(competition, season, m) && m.awayGoals > m.homeGoals)
        && r.value.draws == Count(g.matches, (m: MatchRecord) => InLeague(competition, season, m) && m.homeGoals == m.awayGoals)
  {
    var sel := Filter(g.matches, InLeagueBy(competition, season));
    CountPartition(sel, HomeWin(), AwayWin(), Draw());
    FilterCount(g.matches, InLeagueBy(competition, season));
    CountFiltered(g.matches, InLeagueBy(competition, season), HomeWin());
    CountFiltered(g.matches, InLeagueBy(competition, season), AwayWin());
    CountFiltered(g.matches, InLeagueBy(competition, season), Draw());
    CountAgree(g.matches, (m: MatchRecord) => InLeagueBy(competition, season)(m) && HomeWin()(m),
      (m: MatchRecord) => InLeague(competition, season, m) && m.homeGoals > m.awayGoals);
    CountAgree(g.matches, (m: MatchRecord) => InLeagueBy(competition, season)(m) && AwayWin()(m),
      (m: MatchRecord) => InLeague(competition, season, m) && m.awayGoals > m.homeGoals);
    CountAgree(g.matches, (m: MatchRecord) => InLeagueBy(competition, season)(m) && Draw()(m),
      (m: MatchRecord) => InLeague(competition, season, m) && m.homeGoals == m.awayGoals);
  }

  /** For a given season the league statistics agree with that season's
      standings: every match is played twice across the table, and the
      goals total is the table's goals for. */
  lemma LeagueStatisticsMatchStandings(g: Graph, competition: string, season: int)
    requires season != 0
    ensures var r := GetLeagueStatistics(g, competition, Some(season));
      var rows := StandingsOf(competition, season, g.matches).standings;
      r.Ok? ==>
        && Sum(rows, RowMatches()) == 2 * r.value.totalMatches
        && Sum(rows, RowFor()) == r.value.totalGoals
  {
    FilterAgree(g.matches, InLeagueBy(competition, Some(season)), InSeasonOf(competition, season));
    StandingsTotals(competition, season, g.matches);
  }

  // ---------------------------------------------------------------------------
  // Top-scoring teams
  // ---------------------------------------------------------------------------

  /** One `{team, goals}` map of `all_goals`. */
  datatype Scored = Scored(team: string, goals: int)

  function HomeEntries(ms: seq<MatchRecord>): seq<Scored> {
    seq(|ms|, i requires 0 <= i < |ms| => Scored(ms[i].homeTeam, ms[i].homeGoals))
  }

  function AwayEntries(ms: seq<MatchRecord>): seq<Scored> {
    seq(|ms|, i requires 0 <= i < |ms| => Scored(ms[i].awayTeam, ms[i].awayGoals))
  }

  /** `collect(home entries) + collect(away entries)`, unwound. */
  function AllGoals(ms: seq<MatchRecord>): seq<Scored> {
    HomeEntries(ms) + AwayEntries(ms)
  }

  function Names(es: seq<Scored>): seq<string> {
    seq(|es|, i requires 0 <= i < |es| => es[i].team)
  }

  /** The grouping keys of `sum(goals)`, in order of first appearance. */
  function Keys(names: seq<string>): (ks: seq<string>)
    ensures Distinct(ks)
    ensures forall t :: t in ks <==> t in names
  {
    if names == [] then []
    else
      var init := names[..|names| - 1];
      assert names == init + [names[|names| - 1]];
      Enter(Keys(init), names[|names| - 1])
  }

  /** Team `t`'s goals in an entry. */
  function GoalsOf(t: string): Scored -> int {
    (e: Scored) => if e.team == t then e.goals else 0
  }

  /** One returned `{team, goals}` dict. */
  datatype ScorerRow = ScorerRow(team: string, goals: int)

  /** `RETURN team, sum(goals)`: one row per key. */
  function TeamTotals(es: seq<Scored>): seq<ScorerRow> {
    var ks := Keys(Names(es));
    seq(|ks|, k requires 0 <= k < |ks| => ScorerRow(ks[k], Sum(es, GoalsOf(ks[k]))))
  }

  /** `ORDER BY total_goals DESC`. */
  function ByGoals(): (ScorerRow, ScorerRow) -> bool {
    (a: ScorerRow, b: ScorerRow) => a.goals >= b.goals
  }

  function RowGoals(): ScorerRow -> int { (r: ScorerRow) => r.goals }

  /** The dict `get_top_scoring_teams` returns. */
  datatype TopScorers = TopScorers(competition: Option<string>, season: Option<int>, teams: seq<ScorerRow>)

  /** `get_top_scoring_teams(competition, season, limit)`. */
  function GetTopScoringTeams(g: Graph, competition: Option<string>, season: Option<int>, limit: nat): (r: TopScorers)
    ensures r.competition == competition && r.season == season && |r.teams| <= limit
  {
    var sel := Filter(g.matches, ChosenBy(competition, season));
    TopScorers(competition, season, Limit(Sort(TeamTotals(AllGoals(sel)), ByGoals()), limit))
  }

  /** The teams named in the entries are those that appear in the
      matches. */
  lemma NamesAppear(ms: seq<MatchRecord>)
    ensures forall t :: t in Names(AllGoals(ms)) <==> Appears(t, ms)
  {
    var es := AllGoals(ms);
    forall t
      ensures t in Names(es) <==> Appears(t, ms)
    {
      if t in Names(es) {
        var i :| 0 <= i < |es| && Names(es)[i] == t;
        if i < |ms| {
          assert ms[i].homeTeam == t;
        } else {
          assert ms[i - |ms|].awayTeam == t;
        }
      }
      if Appears(t, ms) {
        var i :| 0 <= i < |ms| && (ms[i].homeTeam == t || ms[i].awayTeam == t);
        if ms[i].homeTeam == t {
          assert Names(es)[i] == t;
        } else {
          assert Names(es)[|ms| + i] == t;
        }
      }
    }
  }

  /** A team's summed entries are its goals for in the standings sense:
      its home goals plus its away goals. */
  lemma {:induction false} EntryGoals(t: string, ms: seq<MatchRecord>)
    ensures Sum(AllGoals(ms), GoalsOf(t)) == LineOf(t, ms).goalsFor
    decreases |ms|
  {
    SumConcat(HomeEntries(ms), AwayEntries(ms), GoalsOf(t));
    SidesGoals(t, ms);
  }

  lemma {:induction false} SidesGoals(t: string, ms: seq<MatchRecord>)
    ensures Sum(HomeEntries(ms), GoalsOf(t)) + Sum(AwayEntries(ms), GoalsOf(t)) == LineOf(t, ms).goalsFor
    decreases |ms|
  {
    if ms != [] {
      var init := ms[..|ms| - 1];
      assert HomeEntries(ms)[..|ms| - 1] == HomeEntries(init);
      assert AwayEntries(ms)[..|ms| - 1] == AwayEntries(init);
      SidesGoals(t, init);
    }
  }

  /** Each row's goals are its team's goals for over the chosen matches. */
  lemma TotalsAreGoalsFor(ms: seq<MatchRecord>)
    ensures forall r :: r in TeamTotals(AllGoals(ms)) ==> Appears(r.team, ms) && r.goals == LineOf(r.team, ms).goalsFor
  {
    var es := AllGoals(ms);
    var ks := Keys(Names(es));
    NamesAppear(ms);
    forall r | r in TeamTotals(es)
      ensures Appears(r.team, ms) && r.goals == LineOf(r.team, ms).goalsFor
    {
      var k :| 0 <= k < |ks| && TeamTotals(es)[k] == r;
      assert ks[k] in Names(es);
      EntryGoals(ks[k], ms);
    }
  }

  lemma TotalsDistinct(es: seq<Scored>)
    ensures Distinct(TeamTotals(es))
  {
    var ks := Keys(Names(es));
    var rows := TeamTotals(es);
    forall i, j | 0 <= i < j < |rows|
      ensures rows[i] != rows[j]
    {
      assert rows[i].team == ks[i] && rows[j].team == ks[j];
    }
  }

  /** The returned teams are distinct teams of the chosen matches, each
      with its goals for, highest first, at most `limit` of them. */
  lemma TopScorersRows(g: Graph, competition: Option<string>, season: Option<int>, limit: nat)
    ensures var sel, teams := Filter(g.matches, ChosenBy(competition, season)), GetTopScoringTeams(g, competition, season, limit).teams;
      && (forall k :: 0 <= k < |teams| ==> Appears(teams[k].team, sel) && teams[k].goals == LineOf(teams[k].team, sel).goalsFor)
      && (forall i, j :: 0 <= i < j < |teams| ==> teams[i].team != teams[j].team && teams[i].goals >= teams[j].goals)
  {
    var sel := Filter(g.matches, ChosenBy(competition, season));
    var rows := TeamTotals(AllGoals(sel));
    var sorted := Sort(rows, ByGoals());
    var teams := GetTopScoringTeams(g, competition, season, limit).teams;
    TotalsAreGoalsFor(sel);
    TopOfSorted(rows, ByGoals(), limit);
    TotalsDistinct(AllGoals(sel));
    PermutationDistinct(rows, sorted);
    forall k | 0 <= k < |teams|
      ensures teams[k] in rows
    {
      assert teams[k] == sorted[k];
      assert sorted[k] in multiset(sorted);
    }
    forall i, j | 0 <= i < j < |teams|
      ensures teams[i].team != teams[j].team
    {
      assert teams[i] == sorted[i] && teams[j] == sorted[j];
    }
  }

  /** Every team of the matches has its row among the grouped totals. */
  lemma ScorersListed(sel: seq<MatchRecord>)
    ensures forall t :: Appears(t, sel) ==> ScorerOf(sel, t) in TeamTotals(AllGoals(sel))
  {
    var es := AllGoals(sel);
    var ks := Keys(Names(es));
    var rows := TeamTotals(es);
    NamesAppear(sel);
    forall t | Appears(t, sel)
      ensures ScorerOf(sel, t) in rows
    {
      assert t in ks;
      var k :| 0 <= k < |ks| && ks[k] == t;
      EntryGoals(t, sel);
      assert rows[k] == ScorerOf(sel, t);
    }
  }

  /** No team of the chosen matches left out scored more than a team
      returned; when fewer than `limit` teams come back, they are all the
      teams and their goals add up to all the goals scored. */
  lemma TopScorersTop(g: Graph, competition: Option<string>, season: Option<int>, limit: nat)
    ensures var sel, teams := Filter(g.matches, ChosenBy(competition, season)), GetTopScoringTeams(g, competition, season, limit).teams;
      forall t, k :: Appears(t, sel) && (forall i :: 0 <= i < |teams| ==> teams[i].team != t) && 0 <= k < |teams| ==>
        LineOf(t, sel).goalsFor <= teams[k].goals
    ensures var sel, teams := Filter(g.matches, ChosenBy(competition, season)), GetTopScoringTeams(g, competition, season, limit).teams;
      |teams| < limit ==>
        && (forall t :: Appears(t, sel) ==> exists i :: 0 <= i < |teams| && teams[i].team == t)
        && Sum(teams, RowGoals()) == Sum(sel, Goals)
  {
    var sel := Filter(g.matches, ChosenBy(competition, season));
    TopScorersLeftOut(sel, limit);
    TopScorersAll(sel, limit);
  }

  /** A team left out of the top `limit` scored no more than a team kept. */
  lemma TopScorersLeftOut(sel: seq<MatchRecord>, limit: nat)
    ensures var teams := Limit(Sort(TeamTotals(AllGoals(sel)), ByGoals()), limit);
      forall t, k :: Appears(t, sel) && (forall i :: 0 <= i < |teams| ==> teams[i].team != t) && 0 <= k < |teams| ==>
        LineOf(t, sel).goalsFor <= teams[k].goals
  {
    var rows := TeamTotals(AllGoals(sel));
    var teams := Limit(Sort(rows, ByGoals()), limit);
    ScorersListed(sel);
    TopOfSorted(rows, ByGoals(), limit);
    forall t, k | Appears(t, sel) && (forall i :: 0 <= i < |teams| ==> teams[i].team != t) && 0 <= k < |teams|
      ensures LineOf(t, sel).goalsFor <= teams[k].goals
    {
      assert ScorerOf(sel, t) !in teams;
      assert ByGoals()(teams[k], ScorerOf(sel, t));
    }
  }

  /** When fewer than `limit` teams come back, they are all the teams and
      their goals add up to all the goals scored. */
  lemma TopScorersAll(sel: seq<MatchRecord>, limit: nat)
    ensures var teams := Limit(Sort(TeamTotals(AllGoals(sel)), ByGoals()), limit);
      |teams| < limit ==>
        && (forall t :: Appears(t, sel) ==> exists i :: 0 <= i < |teams| && teams[i].team == t)
        && Sum(teams, RowGoals()) == Sum(sel, Goals)
  {
    var rows := TeamTotals(AllGoals(sel));
    var sorted := Sort(rows, ByGoals());
    var teams := Limit(sorted, limit);
    if |teams| < limit {
      assert teams == sorted;
      ScorersListed(sel);
      forall t | Appears(t, sel)
        ensures exists i :: 0 <= i < |teams| && teams[i].team == t
      {
        assert ScorerOf(sel, t) in multiset(sorted);
        var i :| 0 <= i < |teams| && teams[i] == ScorerOf(sel, t);
      }
      TopScorersTotal(sel);
      SumSort(rows, ByGoals(), RowGoals());
    }
  }

  /** Team `t`'s row as the grouping computes it, by its standings value. */
  function ScorerOf(ms: seq<MatchRecord>, t: string): ScorerRow {
    ScorerRow(t, LineOf(t, ms).goalsFor)
  }

  /** All the teams' totals add up to all the goals scored. */
  lemma TopScorersTotal(ms: seq<MatchRecord>)
    ensures Sum(TeamTotals(AllGoals(ms)), RowGoals()) == Sum(ms, Goals)
  {
    var es := AllGoals(ms);
    var ks := Keys(Names(es));
    NamesAppear(ms);
    forall k | 0 <= k < |ks|
      ensures Sum(es, GoalsOf(ks[k])) == LineOf(ks[k], ms).goalsFor
    {
      EntryGoals(ks[k], ms);
    }
    assert TeamTotals(es) == seq(|ks|, k requires 0 <= k < |ks| => ScorerOf(ms, ks[k]));
    SumRows(ks, ms);
    TableTotals(ks, ms);
  }

  lemma {:induction false} SumRows(ts: seq<string>, ms: seq<MatchRecord>)
    ensures Sum(seq(|ts|, k requires 0 <= k < |ts| => ScorerOf(ms, ts[k])), RowGoals()) == Sum(ts, FieldIn(ms, LineFor()))
    decreases |ts|
  {
    if ts != [] {
      var init := ts[..|ts| - 1];
      var rs := seq(|ts|, k requires 0 <= k < |ts| => ScorerOf(ms, ts[k]));
      assert rs[..|ts| - 1] == seq(|init|, k requires 0 <= k < |init| => ScorerOf(ms, init[k]));
      SumRows(init, ms);
    }
  }
}
