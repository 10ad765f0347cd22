/** The match queries of `QueryExecutor`: head-to-head, the matches of one
    team with its record over them, and matches in a date range. Names are
    normalized with the same normalization the loader used. */
module MatchQueries {
  import opened Wrappers
  import opened Text
  import opened Normalization
  import opened Models
  import opened Selection

  // ---------------------------------------------------------------------------
  // A match from one team's side
  // ---------------------------------------------------------------------------

  /** The tallies read a match from the side of `team`: its home side when
      it is the home team, the away side otherwise. */
  predicate WonBy(team: string, m: MatchRecord) {
    if m.homeTeam == team then m.homeGoals > m.awayGoals else m.awayGoals > m.homeGoals
  }

  predicate LostBy(team: string, m: MatchRecord) {
    if m.homeTeam == team then m.awayGoals > m.homeGoals else m.homeGoals > m.awayGoals
  }

  predicate IsDraw(m: MatchRecord) {
    m.homeGoals == m.awayGoals
  }

  function GoalsFor(team: string, m: MatchRecord): int {
    if m.homeTeam == team then m.homeGoals else m.awayGoals
  }

  function GoalsAgainst(team: string, m: MatchRecord): int {
    if m.homeTeam == team then m.awayGoals else m.homeGoals
  }

  function Wins(team: string): MatchRecord -> bool {
    m => WonBy(team, m)
  }

  function Losses(team: string): MatchRecord -> bool {
    m => LostBy(team, m)
  }

  function Scored(team: string): MatchRecord -> int {
    m => GoalsFor(team, m)
  }

  function Conceded(team: string): MatchRecord -> int {
    m => GoalsAgainst(team, m)
  }

  /** Every match is a win, a loss or a draw for `team`, and its goals are
      the goals `team` scored and conceded. */
  lemma OutcomesPartition(team: string, ms: seq<MatchRecord>)
    ensures Count(ms, Wins(team)) + Count(ms, Losses(team)) + Count(ms, IsDraw) == |ms|
    ensures Sum(ms, Scored(team)) + Sum(ms, Conceded(team)) == Sum(ms, Goals)
  {
    CountPartition(ms, Wins(team), Losses(team), IsDraw);
    SumAdd(ms, Scored(team), Conceded(team), Goals);
  }

  // ---------------------------------------------------------------------------
  // Head to head
  // ---------------------------------------------------------------------------

  /** The WHERE clause of `find_matches_between_teams`: the matches of the
      two teams, either one at home. */
  predicate Between(t1: string, t2: string, m: MatchRecord) {
    (m.homeTeam == t1 && m.awayTeam == t2) || (m.homeTeam == t2 && m.awayTeam == t1)
  }

  function BetweenTeams(t1: string, t2: string): MatchRecord -> bool {
    m => Between(t1, t2, m)
  }

  /** The dict `find_matches_between_teams` returns. */
  datatype HeadToHead = HeadToHead(
    team1: string, team2: string, totalMatches: nat,
    team1Wins: nat, team2Wins: nat, draws: nat,
    team1Goals: int, team2Goals: int,
    matches: seq<MatchRecord>)

  /** The head-to-head record of the normalized names `t1`, `t2` over the
      matches the store returns: each counter counts the matches of that
      outcome, each goal total sums that side's goals. */
  function HeadToHeadOf(t1: string, t2: string, nodes: seq<MatchRecord>, limit: nat): HeadToHead {
    var ms := Select(nodes, BetweenTeams(t1, t2), limit);
    HeadToHead(t1, t2, |ms|, Count(ms, Wins(t1)), Count(ms, Losses(t1)), Count(ms, IsDraw),
               Sum(ms, Scored(t1)), Sum(ms, Conceded(t1)), ms)
  }

  /** Wins, losses and draws account for every match returned, and the two
      goal totals for every goal scored in them. */
  lemma HeadToHeadConservation(t1: string, t2: string, nodes: seq<MatchRecord>, limit: nat)
    ensures var r := HeadToHeadOf(t1, t2, nodes, limit);
      && r.team1Wins + r.team2Wins + r.draws == r.totalMatches == |r.matches|
      && r.team1Goals + r.team2Goals == Sum(r.matches, Goals)
      && |r.matches| <= limit
      && forall i :: 0 <= i < |r.matches| ==> Between(t1, t2, r.matches[i]) && r.matches[i] in nodes
  {
    OutcomesPartition(t1, Select(nodes, BetweenTeams(t1, t2), limit));
  }

  /** Asking with the two teams swapped returns the same matches with the
      wins and the goals of the two sides swapped and the draws unchanged. */
  lemma HeadToHeadSymmetric(t1: string, t2: string, nodes: seq<MatchRecord>, limit: nat)
    requires t1 != t2
    ensures var r, s := HeadToHeadOf(t1, t2, nodes, limit), HeadToHeadOf(t2, t1, nodes, limit);
      && s.matches == r.matches && s.totalMatches == r.totalMatches
      && s.team1Wins == r.team2Wins && s.team2Wins == r.team1Wins && s.draws == r.draws
      && s.team1Goals == r.team2Goals && s.team2Goals == r.team1Goals
  {
    FilterAgree(nodes, BetweenTeams(t1, t2), BetweenTeams(t2, t1));
    var ms := Select(nodes, BetweenTeams(t1, t2), limit);
    assert Select(nodes, BetweenTeams(t2, t1), limit) == ms;
    CountAgree(ms, Wins(t2), Losses(t1));
    CountAgree(ms, Losses(t2), Wins(t1));
    SumAgree(ms, Scored(t2), Conceded(t1));
    SumAgree(ms, Conceded(t2), Scored(t1));
  }

  /** `find_matches_between_teams(team1, team2, limit)`: both names are
      normalized, the matches between them are read, and the loop over them
      tallies the record. */
  method FindMatchesBetweenTeams(norm: Normalizer, g: Graph, team1: string, team2: string, limit: nat)
    returns (r: HeadToHead)
    ensures r == HeadToHeadOf(norm(team1), norm(team2), g.matches, limit)
    ensures r.team1Wins + r.team2Wins + r.draws == r.totalMatches == |r.matches|
    ensures r.team1Goals + r.team2Goals == Sum(r.matches, Goals)
  {
    var t1, t2 := norm(team1), norm(team2);
    var matches := Select(g.matches, BetweenTeams(t1, t2), limit);
    var team1Wins, team2Wins, draws := 0, 0, 0;
    var team1Goals, team2Goals := 0, 0;
    var i := 0;
    while i < |matches|
      invariant 0 <= i <= |matches|
      invariant team1Wins == Count(matches[..i], Wins(t1)) && team2Wins == Count(matches[..i], Losses(t1))
      invariant draws == Count(matches[..i], IsDraw)
      invariant team1Goals == Sum(matches[..i], Scored(t1)) && team2Goals == Sum(matches[..i], Conceded(t1))
    {
      var m := matches[i];
      CountSnoc(matches, i, Wins(t1));
      CountSnoc(matches, i, Losses(t1));
      CountSnoc(matches, i, IsDraw);
      SumSnoc(matches, i, Scored(t1));
      SumSnoc(matches, i, Conceded(t1));
      var home, hg, ag := m.homeTeam, m.homeGoals, m.awayGoals;
      if home == t1 {
        team1Goals, team2Goals := team1Goals + hg, team2Goals + ag;
        if hg > ag {
          team1Wins := team1Wins + 1;
        } else if ag > hg {
          team2Wins := team2Wins + 1;
        } else {
          draws := draws + 1;
        }
      } else {
        team2Goals, team1Goals := team2Goals + hg, team1Goals + ag;
        if hg > ag {
          team2Wins := team2Wins + 1;
        } else if ag > hg {
          team1Wins := team1Wins + 1;
        } else {
          draws := draws + 1;
        }
      }
      i := i + 1;
    }
    assert matches[..i] == matches;
    r := HeadToHead(t1, t2, |matches|, team1Wins, team2Wins, draws, team1Goals, team2Goals, matches);
    HeadToHeadConservation(t1, t2, g.matches, limit);
  }

  // ---------------------------------------------------------------------------
  // The matches of one team
  // ---------------------------------------------------------------------------

  /** The optional arguments of `find_matches_by_team`. */
  datatype TeamFilter = TeamFilter(season: Option<int>, competition: Option<string>, homeOnly: bool, awayOnly: bool)

  /** The WHERE clause: `home_only` is tested first, so it wins over
      `away_only`; the season and the competition conditions are added only
      for truthy arguments. */
  predicate Plays(team: string, f: TeamFilter, m: MatchRecord) {
    && (if f.homeOnly then m.homeTeam == team
        else if f.awayOnly then m.awayTeam == team
        else m.homeTeam == team || m.awayTeam == team)
    && SeasonOk(f.season, m)
    && CompetitionOk(f.competition, m)
  }

  function PlaysIn(team: string, f: TeamFilter): MatchRecord -> bool {
    m => Plays(team, f, m)
  }

  /** The dict `find_matches_by_team` returns. */
  datatype TeamMatches = TeamMatches(
    team: string, totalMatches: nat, wins: nat, losses: nat, draws: nat,
    goalsFor: int, goalsAgainst: int, goalDifference: int, points: int,
    matches: seq<MatchRecord>)

  /** The record of the normalized name `team` over the matches read. */
  function TeamMatchesOf(team: string, f: TeamFilter, nodes: seq<MatchRecord>, limit: nat): TeamMatches {
    var ms := Select(nodes, PlaysIn(team, f), limit);
    var w, d := Count(ms, Wins(team)), Count(ms, IsDraw);
    var gf, ga := Sum(ms, Scored(team)), Sum(ms, Conceded(team));
    TeamMatches(team, |ms|, w, Count(ms, Losses(team)), d, gf, ga, gf - ga, 3 * w + d, ms)
  }

  /** Wins, draws and losses account for every match; the goal difference
      and the points follow from the counters; every match returned passes
      the filter, so a home-only query returns only home matches of the
      team and an away-only one only its away matches. */
  lemma TeamMatchesArithmetic(team: string, f: TeamFilter, nodes: seq<MatchRecord>, limit: nat)
    ensures var r := TeamMatchesOf(team, f, nodes, limit);
      && r.wins + r.draws + r.losses == r.totalMatches == |r.matches| <= limit
      && r.goalDifference == r.goalsFor - r.goalsAgainst
      && r.points == 3 * r.wins + r.draws
      && r.goalsFor + r.goalsAgainst == Sum(r.matches, Goals)
      && (forall i :: 0 <= i < |r.matches| ==> Plays(team, f, r.matches[i]) && r.matches[i] in nodes)
      && (f.homeOnly ==> forall i :: 0 <= i < |r.matches| ==> r.matches[i].homeTeam == team)
      && (!f.homeOnly && f.awayOnly ==> forall i :: 0 <= i < |r.matches| ==> r.matches[i].awayTeam == team)
  {
    OutcomesPartition(team, Select(nodes, PlaysIn(team, f), limit));
  }

  /** With both `home_only` and `away_only` set, the query is the home-only
      query. */
  lemma HomeOnlyWins(team: string, f: TeamFilter, nodes: seq<MatchRecord>, limit: nat)
    requires f.homeOnly
    ensures TeamMatchesOf(team, f.(awayOnly := true), nodes, limit) == TeamMatchesOf(team, f.(awayOnly := false), nodes, limit)
  {
    FilterAgree(nodes, PlaysIn(team, f.(awayOnly := true)), PlaysIn(team, f.(awayOnly := false)));
  }

  /** A season of 0 or an empty competition is not truthy, so it filters
      nothing: the query is the one without it. */
  lemma FalsyArgumentsIgnored(team: string, f: TeamFilter, nodes: seq<MatchRecord>, limit: nat)
    ensures TeamMatchesOf(team, f.(season := Some(0)), nodes, limit) == TeamMatchesOf(team, f.(season := None), nodes, limit)
    ensures TeamMatchesOf(team, f.(competition := Some("")), nodes, limit) == TeamMatchesOf(team, f.(competition := None), nodes, limit)
  {
    FilterAgree(nodes, PlaysIn(team, f.(season := Some(0))), PlaysIn(team, f.(season := None)));
    FilterAgree(nodes, PlaysIn(team, f.(competition := Some(""))), PlaysIn(team, f.(competition := None)));
  }

  /** `find_matches_by_team(team, season, competition, home_only, away_only,
      limit)`: the name is normalized, the matches are read, and the loop
      tallies the record from the team's side. */
  method FindMatchesByTeam(norm: Normalizer, g: Graph, team: string, f: TeamFilter, limit: nat)
    returns (r: TeamMatches)
    ensures r == TeamMatchesOf(norm(team), f, g.matches, limit)
    ensures r.wins + r.draws + r.losses == r.totalMatches == |r.matches|
    ensures r.goalDifference == r.goalsFor - r.goalsAgainst && r.points == 3 * r.wins + r.draws
    ensures f.homeOnly ==> forall i :: 0 <= i < |r.matches| ==> r.matches[i].homeTeam == r.team
  {
    var t := norm(team);
    var matches := Select(g.matches, PlaysIn(t, f), limit);
    var wins, losses, draws := 0, 0, 0;
    var goalsFor, goalsAgainst := 0, 0;
    var i := 0;
    while i < |matches|
      invariant 0 <= i <= |matches|
      invariant wins == Count(matches[..i], Wins(t)) && losses == Count(matches[..i], Losses(t))
      invariant draws == Count(matches[..i], IsDraw)
      invariant goalsFor == Sum(matches[..i], Scored(t)) && goalsAgainst == Sum(matches[..i], Conceded(t))
    {
      var m := matches[i];
      CountSnoc(matches, i, Wins(t));
      CountSnoc(matches, i, Losses(t));
      CountSnoc(matches, i, IsDraw);
      SumSnoc(matches, i, Scored(t));
      SumSnoc(matches, i, Conceded(t));
      var home, hg, ag := m.homeTeam, m.homeGoals, m.awayGoals;
      if home == t {
        goalsFor, goalsAgainst := goalsFor + hg, goalsAgainst + ag;
        if hg > ag {
          wins := wins + 1;
        } else if ag > hg {
          losses := losses + 1;
        } else {
          draws := draws + 1;
        }
      } else {
        goalsFor, goalsAgainst := goalsFor + ag, goalsAgainst + hg;
        if ag > hg {
          wins := wins + 1;
        } else if hg > ag {
          losses := losses + 1;
        } else {
          draws := draws + 1;
        }
      }
      i := i + 1;
    }
    assert matches[..i] == matches;
    r := TeamMatches(t, |matches|, wins, losses, draws, goalsFor, goalsAgainst,
                     goalsFor - goalsAgainst, wins * 3 + draws, matches);
    TeamMatchesArithmetic(t, f, g.matches, limit);
  }

  // ---------------------------------------------------------------------------
  // Date range
  // ---------------------------------------------------------------------------

  /** The WHERE clause of `find_matches_by_date_range`: Cypher compares the
      stored `datetime` string with the two bound strings; a null datetime
      compares as null and is not returned. */
  predicate InRange(start: string, end: string, competition: Option<string>, m: MatchRecord) {
    && m.datetime.Some? && StrLe(start, m.datetime.value) && StrLe(m.datetime.value, end)
    && CompetitionOk(competition, m)
  }

  function InRangeOf(start: string, end: string, competition: Option<string>): MatchRecord -> bool {
    m => InRange(start, end, competition, m)
  }

  datatype DateRange = DateRange(startDate: string, endDate: string, totalMatches: nat, matches: seq<MatchRecord>)

  /** `find_matches_by_date_range(start_date, end_date, competition, limit)`:
      at most `limit` matches, each dated within the bounds by string order
      and in the competition when one is given; when fewer than `limit` come
      back, they are all such matches. */
  function FindMatchesByDateRange(g: Graph, start: string, end: string, competition: Option<string>, limit: nat): (r: DateRange)
    ensures r.startDate == start && r.endDate == end && r.totalMatches == |r.matches| <= limit
    ensures forall i :: 0 <= i < |r.matches| ==>
      var m := r.matches[i];
      && m in g.matches && m.datetime.Some?
      && StrLe(start, m.datetime.value) && StrLe(m.datetime.value, end)
      && CompetitionOk(competition, m)
    ensures |r.matches| < limit ==> forall i :: 0 <= i < |g.matches| && InRange(start, end, competition, g.matches[i]) ==> g.matches[i] in r.matches
  {
    var ms := Select(g.matches, InRangeOf(start, end, competition), limit);
    DateRange(start, end, |ms|, ms)
  }

  /** The stored datetime of a dated match is the date followed by a time,
      so an end bound given as a bare date excludes the matches played on
      that date. */
  lemma EndDateExcluded(start: string, end: string, competition: Option<string>, m: MatchRecord)
    requires m.datetime.Some? && |m.datetime.value| > |end| && m.datetime.value[..|end|] == end
    ensures !InRange(start, end, competition, m)
  {
    LongerExtensionNotLe(m.datetime.value, end);
  }

  /** The datetime the loader stores for a match dated `d`, looked up with
      `end_date` set to that date's `YYYY-MM-DD`. */
  lemma StoredMatchOnEndDateExcluded(start: string, competition: Option<string>, m: Match)
    requires m.datetime.Some?
    ensures !InRange(start, IsoDate(m.datetime.value), competition, MatchToDict(m))
  {
    EndDateExcluded(start, IsoDate(m.datetime.value), competition, MatchToDict(m));
  }
}
