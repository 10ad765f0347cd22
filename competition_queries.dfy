/** The competition queries of `QueryExecutor`: a season's standings
    computed from its match results, and each season's winner. */
module CompetitionQueries {
  import opened Wrappers
  import opened Text
  import opened Models
  import opened Selection
  import opened Sorting

  // ---------------------------------------------------------------------------
  // A team's line in the table
  // ---------------------------------------------------------------------------

  /** The per-team counters of the standings dict. */
  datatype Line = Line(
    team: string, matches: int, wins: int, draws: int, losses: int,
    goalsFor: int, goalsAgainst: int, points: int)

  /** The counters a team starts from when first seen. */
  function Zero(t: string): Line {
    Line(t, 0, 0, 0, 0, 0, 0, 0)
  }

  function Add(l: Line, d: Line): Line {
    Line(l.team, l.matches + d.matches, l.wins + d.wins, l.draws + d.draws, l.losses + d.losses,
      l.goalsFor + d.goalsFor, l.goalsAgainst + d.goalsAgainst, l.points + d.points)
  }

  /** Points for a side that scored `f` and conceded `a`. */
  function Points(f: int, a: int): int {
    if f > a then 3 else if f == a then 1 else 0
  }

  function Ind(b: bool): int {
    if b then 1 else 0
  }

  /** What one match adds to team `t`'s line: once for its home side and
      once for its away side, so a match of a team against itself counts
      twice for it. */
  function Delta(t: string, m: MatchRecord): Line {
    var h, a := m.homeTeam == t, m.awayTeam == t;
    var hg, ag := m.homeGoals, m.awayGoals;
    Line(t,
      Ind(h) + Ind(a),
      Ind(h && hg > ag) + Ind(a && ag > hg),
      Ind(h && hg == ag) + Ind(a && ag == hg),
      Ind(h && hg < ag) + Ind(a && ag < hg),
      (if h then hg else 0) + (if a then ag else 0),
      (if h then ag else 0) + (if a then hg else 0),
      (if h then Points(hg, ag) else 0) + (if a then Points(ag, hg) else 0))
  }

  /** Team `t`'s line over the matches: the sum of what each adds. */
  function LineOf(t: string, ms: seq<MatchRecord>): Line {
    if ms == [] then Zero(t) else Add(LineOf(t, ms[..|ms| - 1]), Delta(t, ms[|ms| - 1]))
  }

  /** Every line's outcomes add up to its matches, and its points are three
      per win and one per draw. */
  lemma {:induction false} LineFacts(t: string, ms: seq<MatchRecord>)
    ensures var l := LineOf(t, ms);
      && l.team == t
      && l.wins + l.draws + l.losses == l.matches
      && l.points == 3 * l.wins + l.draws
      && l.matches >= 0 && l.wins >= 0 && l.draws >= 0 && l.losses >= 0
    decreases |ms|
  {
    if ms != [] {
      LineFacts(t, ms[..|ms| - 1]);
    }
  }

  // ---------------------------------------------------------------------------
  // The teams of the table, in the order the dict first sees them
  // ---------------------------------------------------------------------------

  predicate Appears(t: string, ms: seq<MatchRecord>) {
    exists i :: 0 <= i < |ms| && (ms[i].homeTeam == t || ms[i].awayTeam == t)
  }

  /** `t` appended unless already present. */
  function Enter(ts: seq<string>, t: string): (r: seq<string>)
    ensures Distinct(ts) ==> Distinct(r)
    ensures forall x :: x in r <==> x in ts || x == t
  {
    if t in ts then ts else ts + [t]
  }

  /** The teams of one more match. */
  lemma AppearsSnoc(ms: seq<MatchRecord>, t: string)
    requires ms != []
    ensures Appears(t, ms) <==> Appears(t, ms[..|ms| - 1]) || t == ms[|ms| - 1].homeTeam || t == ms[|ms| - 1].awayTeam
  {
    var init := ms[..|ms| - 1];
    assert forall i :: 0 <= i < |init| ==> init[i] == ms[i];
    if Appears(t, ms) && t != ms[|ms| - 1].homeTeam && t != ms[|ms| - 1].awayTeam {
      var i :| 0 <= i < |ms| && (ms[i].homeTeam == t || ms[i].awayTeam == t);
      assert i < |init|;
    }
  }

  /** The dict's keys in insertion order: each match's home team, then its
      away team, when not yet present. Exactly the teams that appear,
      each once. */
  function TeamsOf(ms: seq<MatchRecord>): (ts: seq<string>)
    ensures Distinct(ts)
    ensures forall t :: t in ts <==> Appears(t, ms)
  {
    if ms == [] then []
    else
      var init, m := ms[..|ms| - 1], ms[|ms| - 1];
      var r := Enter(Enter(TeamsOf(init), m.homeTeam), m.awayTeam);
      assert forall t :: t in r <==> Appears(t, ms) by {
        forall t ensures t in r <==> Appears(t, ms) {
          AppearsSnoc(ms, t);
        }
      }
      r
  }

  /** A team that does not appear has the zero line. */
  lemma {:induction false} AbsentLine(t: string, ms: seq<MatchRecord>)
    requires !Appears(t, ms)
    ensures LineOf(t, ms) == Zero(t)
    decreases |ms|
  {
    if ms != [] {
      var init := ms[..|ms| - 1];
      AppearsSnoc(ms, t);
      AbsentLine(t, init);
    }
  }

  /** The table's lines, one per team, in insertion order. */
  function LinesOf(ms: seq<MatchRecord>): (ls: seq<Line>) {
    var ts := TeamsOf(ms);
    seq(|ts|, k requires 0 <= k < |ts| => LineOf(ts[k], ms))
  }

  // ---------------------------------------------------------------------------
  // Standings
  // ---------------------------------------------------------------------------

  /** `m.competition CONTAINS $competition AND m.season = $season`. */
  predicate InSeason(competition: string, season: int, m: MatchRecord) {
    Contains(m.competition, competition) && m.season == Some(season)
  }

  function InSeasonOf(competition: string, season: int): MatchRecord -> bool {
    m => InSeason(competition, season, m)
  }

  function GoalDifference(l: Line): int {
    l.goalsFor - l.goalsAgainst
  }

  /** The sort key `(points, goal difference, goals for)`, descending. */
  predicate Above(a: Line, b: Line) {
    || a.points > b.points
    || (a.points == b.points && GoalDifference(a) > GoalDifference(b))
    || (a.points == b.points && GoalDifference(a) == GoalDifference(b) && a.goalsFor >= b.goalsFor)
  }

  function RanksAbove(): (Line, Line) -> bool {
    (a, b) => Above(a, b)
  }

  lemma RanksAboveOrders()
    ensures TotalPreorder(RanksAbove())
  {
    var before := RanksAbove();
    forall a, b, c | before(a, b) && before(b, c)
      ensures before(a, c)
    {
      assert Above(a, b) && Above(b, c);
    }
    forall a, b
      ensures before(a, b) || before(b, a)
    {
      assert Above(a, b) || Above(b, a);
    }
  }

  /** A line of the returned standings, with its position and goal
      difference added. */
  datatype StandingRow = StandingRow(line: Line, position: nat, goalDifference: int)

  /** The dict `get_season_standings` returns. */
  datatype Standings = Standings(competition: string, season: int, totalTeams: nat, standings: seq<StandingRow>)

  /** The sorted lines numbered from 1. */
  function Numbered(s: seq<Line>): (rows: seq<StandingRow>) {
    seq(|s|, k requires 0 <= k < |s| => StandingRow(s[k], k + 1, GoalDifference(s[k])))
  }

  /** `get_season_standings(competition, season)` over the match nodes. */
  function StandingsOf(competition: string, season: int, nodes: seq<MatchRecord>): Standings {
    var rows := Numbered(Sort(LinesOf(Filter(nodes, InSeasonOf(competition, season))), RanksAbove()));
    Standings(competition, season, |rows|, rows)
  }

  /** The part of one match that adds goals: each side's match count and
      goals, home side first. */
  function GoalsDelta(t: string, m: MatchRecord): Line {
    var h, a := m.homeTeam == t, m.awayTeam == t;
    var hg, ag := m.homeGoals, m.awayGoals;
    Line(t, Ind(h) + Ind(a), 0, 0, 0,
      (if h then hg else 0) + (if a then ag else 0),
      (if h then ag else 0) + (if a then hg else 0), 0)
  }

  /** The part of one match that adds its result. */
  function ResultDelta(t: string, m: MatchRecord): Line {
    var h, a := m.homeTeam == t, m.awayTeam == t;
    var hg, ag := m.homeGoals, m.awayGoals;
    Line(t, 0,
      Ind(h && hg > ag) + Ind(a && ag > hg),
      Ind(h && hg == ag) + Ind(a && ag == hg),
      Ind(h && hg < ag) + Ind(a && ag < hg), 0, 0,
      (if h then Points(hg, ag) else 0) + (if a then Points(ag, hg) else 0))
  }

  /** Both teams entered with zero counters when not yet in the dict. */
  method EnterTeams(lines: map<string, Line>, order: seq<string>, m: MatchRecord)
    returns (lines': map<string, Line>, order': seq<string>)
    requires forall t :: t in lines <==> t in order
    ensures order' == Enter(Enter(order, m.homeTeam), m.awayTeam)
    ensures forall t :: t in lines' <==> t in order'
    ensures forall t :: t in lines' ==> lines'[t] == if t in lines then lines[t] else Zero(t)
  {
    lines', order' := lines, order;
    if m.homeTeam !in lines' {
      lines' := lines'[m.homeTeam := Zero(m.homeTeam)];
      order' := order' + [m.homeTeam];
    }
    if m.awayTeam !in lines' {
      lines' := lines'[m.awayTeam := Zero(m.awayTeam)];
      order' := order' + [m.awayTeam];
    }
  }

  /** The match and goal counters of both teams, home first. */
  method CreditGoals(lines: map<string, Line>, m: MatchRecord) returns (lines': map<string, Line>)
    requires m.homeTeam in lines && m.awayTeam in lines
    requires forall t :: t in lines ==> lines[t].team == t
    ensures lines'.Keys == lines.Keys
    ensures forall t :: t in lines ==> lines'[t] == Add(lines[t], GoalsDelta(t, m))
  {
    var home, away := m.homeTeam, m.awayTeam;
    var hg, ag := m.homeGoals, m.awayGoals;
    var h := lines[home];
    lines' := lines[home := h.(matches := h.matches + 1, goalsFor := h.goalsFor + hg, goalsAgainst := h.goalsAgainst + ag)];
    var a := lines'[away];
    lines' := lines'[away := a.(matches := a.matches + 1, goalsFor := a.goalsFor + ag, goalsAgainst := a.goalsAgainst + hg)];
  }

  /** The result counters: a win and three points, a loss, or a draw and a
      point each. */
  method CreditResult(lines: map<string, Line>, m: MatchRecord) returns (lines': map<string, Line>)
    requires m.homeTeam in lines && m.awayTeam in lines
    requires forall t :: t in lines ==> lines[t].team == t
    ensures lines'.Keys == lines.Keys
    ensures forall t :: t in lines ==> lines'[t] == Add(lines[t], ResultDelta(t, m))
  {
    var home, away := m.homeTeam, m.awayTeam;
    var hg, ag := m.homeGoals, m.awayGoals;
    if hg > ag {
      var h := lines[home];
      lines' := lines[home := h.(wins := h.wins + 1, points := h.points + 3)];
      var a := lines'[away];
      lines' := lines'[away := a.(losses := a.losses + 1)];
    } else if ag > hg {
      var a := lines[away];
      lines' := lines[away := a.(wins := a.wins + 1, points := a.points + 3)];
      var h := lines'[home];
      lines' := lines'[home := h.(losses := h.losses + 1)];
    } else {
      var h := lines[home];
      lines' := lines[home := h.(draws := h.draws + 1, points := h.points + 1)];
      var a := lines'[away];
      lines' := lines'[away := a.(draws := a.draws + 1, points := a.points + 1)];
    }
  }

  /** One iteration of the results loop: both teams entered when new, then
      the home and away counters updated in the code's order. */
  method Credit(lines: map<string, Line>, order: seq<string>, m: MatchRecord)
    returns (lines': map<string, Line>, order': seq<string>)
    requires forall t :: t in lines <==> t in order
    requires forall t :: t in lines ==> lines[t].team == t
    ensures order' == Enter(Enter(order, m.homeTeam), m.awayTeam)
    ensures forall t :: t in lines' <==> t in order'
    ensures forall t :: t in lines' ==> lines'[t] == Add(if t in lines then lines[t] else Zero(t), Delta(t, m))
  {
    var entered;
    entered, order' := EnterTeams(lines, order, m);
    var scored := CreditGoals(entered, m);
    lines' := CreditResult(scored, m);
    forall t | t in lines'
      ensures lines'[t] == Add(if t in lines then lines[t] else Zero(t), Delta(t, m))
    {
      DeltaSplit(entered[t], t, m);
    }
  }

  /** A match's goals and its result together are what it adds. */
  lemma DeltaSplit(l: Line, t: string, m: MatchRecord)
    ensures Add(Add(l, GoalsDelta(t, m)), ResultDelta(t, m)) == Add(l, Delta(t, m))
  {
  }

  /** One more match: the teams and the lines of the longer prefix. */
  lemma PrefixStep(ms: seq<MatchRecord>, i: nat, t: string)
    requires i < |ms|
    ensures TeamsOf(ms[..i + 1]) == Enter(Enter(TeamsOf(ms[..i]), ms[i].homeTeam), ms[i].awayTeam)
    ensures LineOf(t, ms[..i + 1]) == Add(LineOf(t, ms[..i]), Delta(t, ms[i]))
  {
    assert ms[..i + 1][..i] == ms[..i];
  }

  /** The results loop of `get_season_standings`: the dict of lines over
      the season's matches and its keys in insertion order. */
  method Tabulate(ms: seq<MatchRecord>) returns (lines: map<string, Line>, order: seq<string>)
    ensures order == TeamsOf(ms)
    ensures forall t :: t in lines <==> t in order
    ensures forall t :: t in lines ==> lines[t] == LineOf(t, ms)
  {
    lines, order := map[], [];
    var i := 0;
    while i < |ms|
      invariant 0 <= i <= |ms|
      invariant order == TeamsOf(ms[..i])
      invariant forall t :: t in lines <==> t in order
      invariant forall t :: t in lines ==> lines[t] == LineOf(t, ms[..i])
    {
      forall t | t in lines
        ensures lines[t].team == t
      {
        LineFacts(t, ms[..i]);
      }
      var lines0 := lines;
      lines, order := Credit(lines, order, ms[i]);
      PrefixStep(ms, i, ms[i].homeTeam);
      forall t | t in lines
        ensures lines[t] == LineOf(t, ms[..i + 1])
      {
        PrefixStep(ms, i, t);
        if t !in lines0 {
          AbsentLine(t, ms[..i]);
        }
      }
      i := i + 1;
    }
    assert ms[..i] == ms;
  }

  /** The `enumerate(..., 1)` loop: each line gets its position and goal
      difference. */
  method Number(sorted: seq<Line>) returns (rows: seq<StandingRow>)
    ensures rows == Numbered(sorted)
  {
    rows := [];
    var k := 0;
    while k < |sorted|
      invariant 0 <= k <= |sorted| && |rows| == k
      invariant forall j :: 0 <= j < k ==> rows[j] == StandingRow(sorted[j], j + 1, GoalDifference(sorted[j]))
    {
      rows := rows + [StandingRow(sorted[k], k + 1, sorted[k].goalsFor - sorted[k].goalsAgainst)];
      k := k + 1;
    }
  }

  /** `standings.values()` after the results loop: the lines in the order
      their teams entered the dict. */
  method TableValues(ms: seq<MatchRecord>) returns (rows: seq<Line>)
    ensures rows == LinesOf(ms)
  {
    var lines, order := Tabulate(ms);
    rows := seq(|order|, k requires 0 <= k < |order| => lines[order[k]]);
  }

  /** `get_season_standings(competition, season)`: the season's matches
      tallied into a dict, its values sorted by points, goal difference and
      goals for, descending and stable, then numbered. */
  method GetSeasonStandings(g: Graph, competition: string, season: int) returns (r: Standings)
    ensures r == StandingsOf(competition, season, g.matches)
  {
    var ms := Filter(g.matches, InSeasonOf(competition, season));
    var rows := TableValues(ms);
    var sorted := Sort(rows, RanksAbove());
    var standings := Number(sorted);
    r := Standings(competition, season, |standings|, standings);
  }

  // ---------------------------------------------------------------------------
  // Properties of the standings
  // ---------------------------------------------------------------------------

  /** The table's lines are those of distinct teams, each team's own. */
  lemma LinesOfFacts(ms: seq<MatchRecord>)
    ensures var ts, ls := TeamsOf(ms), LinesOf(ms);
      && |ls| == |ts|
      && (forall k :: 0 <= k < |ls| ==> ls[k] == LineOf(ts[k], ms) && ls[k].team == ts[k])
      && Distinct(ls)
  {
    var ts, ls := TeamsOf(ms), LinesOf(ms);
    forall k | 0 <= k < |ls|
      ensures ls[k].team == ts[k]
    {
      LineFacts(ts[k], ms);
    }
  }

  /** The sorted lines are the teams' own lines, in ranking order. */
  lemma SortedLinesOwn(ms: seq<MatchRecord>)
    ensures var ts, sorted := TeamsOf(ms), Sort(LinesOf(ms), RanksAbove());
      && |sorted| == |ts|
      && (forall k :: 0 <= k < |sorted| ==> Appears(sorted[k].team, ms) && sorted[k] == LineOf(sorted[k].team, ms))
      && (forall i, j :: 0 <= i < j < |sorted| ==> Above(sorted[i], sorted[j]))
  {
    var ts, ls := TeamsOf(ms), LinesOf(ms);
    var sorted := Sort(ls, RanksAbove());
    LinesOfFacts(ms);
    RanksAboveOrders();
    SortSorted(ls, RanksAbove());
    forall k | 0 <= k < |sorted|
      ensures Appears(sorted[k].team, ms) && sorted[k] == LineOf(sorted[k].team, ms)
    {
      assert sorted[k] in multiset(ls);
      var j :| 0 <= j < |ls| && ls[j] == sorted[k];
      assert ts[j] in ts;
    }
    forall i, j | 0 <= i < j < |sorted|
      ensures Above(sorted[i], sorted[j])
    {
      assert RanksAbove()(sorted[i], sorted[j]);
    }
  }

  /** The sorted lines hold each team of the matches exactly once. */
  lemma SortedLinesTeams(ms: seq<MatchRecord>)
    ensures var sorted := Sort(LinesOf(ms), RanksAbove());
      && (forall i, j :: 0 <= i < j < |sorted| ==> sorted[i].team != sorted[j].team)
      && (forall t :: Appears(t, ms) ==> exists k :: 0 <= k < |sorted| && sorted[k].team == t)
  {
    var ts, ls := TeamsOf(ms), LinesOf(ms);
    var sorted := Sort(ls, RanksAbove());
    LinesOfFacts(ms);
    SortedLinesOwn(ms);
    PermutationDistinct(ls, sorted);
    forall i, j | 0 <= i < j < |sorted|
      ensures sorted[i].team != sorted[j].team
    {
      assert sorted[i] != sorted[j];
    }
    forall t | Appears(t, ms)
      ensures exists k :: 0 <= k < |sorted| && sorted[k].team == t
    {
      var j :| 0 <= j < |ts| && ts[j] == t;
      assert ls[j] in multiset(sorted);
      var k :| 0 <= k < |sorted| && sorted[k] == ls[j];
    }
  }

  /** Numbering keeps the lines and their order. */
  lemma NumberedKeeps(s: seq<Line>)
    ensures var rows := Numbered(s);
      && |rows| == |s|
      && forall k :: 0 <= k < |rows| ==>
        rows[k].line == s[k] && rows[k].position == k + 1 && rows[k].goalDifference == s[k].goalsFor - s[k].goalsAgainst
  {
  }

  /** The standings hold a row per team of the season, with that team's
      line; the rows are ordered by points, goal difference and goals for,
      numbered from 1, and each carries its goal difference. */
  lemma StandingsRows(competition: string, season: int, nodes: seq<MatchRecord>)
    ensures var sel, rows := Filter(nodes, InSeasonOf(competition, season)), StandingsOf(competition, season, nodes).standings;
      && StandingsOf(competition, season, nodes).totalTeams == |rows| == |TeamsOf(sel)|
      && (forall k :: 0 <= k < |rows| ==>
            && rows[k].position == k + 1
            && rows[k].goalDifference == rows[k].line.goalsFor - rows[k].line.goalsAgainst
            && Appears(rows[k].line.team, sel)
            && rows[k].line == LineOf(rows[k].line.team, sel))
      && (forall i, j :: 0 <= i < j < |rows| ==> Above(rows[i].line, rows[j].line))
  {
    var sel := Filter(nodes, InSeasonOf(competition, season));
    SortedLinesOwn(sel);
    NumberedKeeps(Sort(LinesOf(sel), RanksAbove()));
  }

  /** Each team of the season has exactly one row. */
  lemma StandingsTeams(competition: string, season: int, nodes: seq<MatchRecord>)
    ensures var sel, rows := Filter(nodes, InSeasonOf(competition, season)), StandingsOf(competition, season, nodes).standings;
      && (forall i, j :: 0 <= i < j < |rows| ==> rows[i].line.team != rows[j].line.team)
      && (forall t :: Appears(t, sel) ==> exists k :: 0 <= k < |rows| && rows[k].line.team == t)
  {
    var sel := Filter(nodes, InSeasonOf(competition, season));
    SortedLinesTeams(sel);
    var sorted := Sort(LinesOf(sel), RanksAbove());
    NumberedKeeps(sorted);
    var rows := Numbered(sorted);
    forall t | Appears(t, sel)
      ensures exists k :: 0 <= k < |rows| && rows[k].line.team == t
    {
      var k :| 0 <= k < |sorted| && sorted[k].team == t;
      assert rows[k].line == sorted[k];
    }
  }

  /** Every row's wins, draws and losses add up to its matches, with three
      points per win and one per draw. */
  lemma StandingsArithmetic(competition: string, season: int, nodes: seq<MatchRecord>)
    ensures var rows := StandingsOf(competition, season, nodes).standings;
      forall k :: 0 <= k < |rows| ==>
        && rows[k].line.wins + rows[k].line.draws + rows[k].line.losses == rows[k].line.matches
        && rows[k].line.points == 3 * rows[k].line.wins + rows[k].line.draws
  {
    var sel, rows := Filter(nodes, InSeasonOf(competition, season)), StandingsOf(competition, season, nodes).standings;
    StandingsRows(competition, season, nodes);
    forall k | 0 <= k < |rows|
      ensures rows[k].line.wins + rows[k].line.draws + rows[k].line.losses == rows[k].line.matches
      ensures rows[k].line.points == 3 * rows[k].line.wins + rows[k].line.draws
    {
      LineFacts(rows[k].line.team, sel);
    }
  }

  // Sums over the rows.

  function RowMatches(): StandingRow -> int { (r: StandingRow) => r.line.matches }
  function RowFor(): StandingRow -> int { (r: StandingRow) => r.line.goalsFor }
  function RowAgainst(): StandingRow -> int { (r: StandingRow) => r.line.goalsAgainst }
  function LineMatches(): Line -> int { (l: Line) => l.matches }
  function LineFor(): Line -> int { (l: Line) => l.goalsFor }
  function LineAgainst(): Line -> int { (l: Line) => l.goalsAgainst }

  /** A field of team `t`'s line over `ms`. */
  function FieldIn(ms: seq<MatchRecord>, f: Line -> int): string -> int {
    t => f(LineOf(t, ms))
  }

  /** `w` for `x`, nothing for every other team. */
  function Point(x: string, w: int): string -> int {
    t => if t == x then w else 0
  }

  lemma {:induction false} SumPoint(ts: seq<string>, x: string, w: int)
    requires Distinct(ts)
    ensures Sum(ts, Point(x, w)) == if x in ts then w else 0
    decreases |ts|
  {
    if ts != [] {
      var init := ts[..|ts| - 1];
      assert forall i :: 0 <= i < |init| ==> init[i] == ts[i];
      assert ts == init + [ts[|ts| - 1]];
      SumPoint(init, x, w);
    }
  }

  lemma {:induction false} SumNumbered(s: seq<Line>)
    ensures Sum(Numbered(s), RowMatches()) == Sum(s, LineMatches())
    ensures Sum(Numbered(s), RowFor()) == Sum(s, LineFor())
    ensures Sum(Numbered(s), RowAgainst()) == Sum(s, LineAgainst())
    decreases |s|
  {
    if s != [] {
      var init := s[..|s| - 1];
      assert Numbered(s)[..|s| - 1] == Numbered(init);
      SumNumbered(init);
    }
  }

  lemma {:induction false} SumLines(ts: seq<string>, ms: seq<MatchRecord>, f: Line -> int)
    ensures Sum(seq(|ts|, k requires 0 <= k < |ts| => LineOf(ts[k], ms)), f) == Sum(ts, FieldIn(ms, f))
    decreases |ts|
  {
    if ts != [] {
      var init := ts[..|ts| - 1];
      var ls := seq(|ts|, k requires 0 <= k < |ts| => LineOf(ts[k], ms));
      assert ls[..|ts| - 1] == seq(|init|, k requires 0 <= k < |init| => LineOf(init[k], ms));
      SumLines(init, ms, f);
    }
  }

  /** Over distinct teams covering every team of the matches, one match
      adds two appearances and its goals once for and once against. */
  lemma MatchShares(ts: seq<string>, m: MatchRecord)
    requires Distinct(ts) && m.homeTeam in ts && m.awayTeam in ts
    ensures Sum(ts, (t: string) => Delta(t, m).matches) == 2
    ensures Sum(ts, (t: string) => Delta(t, m).goalsFor) == Goals(m)
    ensures Sum(ts, (t: string) => Delta(t, m).goalsAgainst) == Goals(m)
  {
    SumPoint(ts, m.homeTeam, 1);
    SumPoint(ts, m.awayTeam, 1);
    SumAdd(ts, Point(m.homeTeam, 1), Point(m.awayTeam, 1), (t: string) => Delta(t, m).matches);
    SumPoint(ts, m.homeTeam, m.homeGoals);
    SumPoint(ts, m.awayTeam, m.awayGoals);
    SumAdd(ts, Point(m.homeTeam, m.homeGoals), Point(m.awayTeam, m.awayGoals), (t: string) => Delta(t, m).goalsFor);
    SumPoint(ts, m.homeTeam, m.awayGoals);
    SumPoint(ts, m.awayTeam, m.homeGoals);
    SumAdd(ts, Point(m.homeTeam, m.awayGoals), Point(m.awayTeam, m.homeGoals), (t: string) => Delta(t, m).goalsAgainst);
  }

  /** With no matches every field sums to zero. */
  lemma TableTotalsEmpty(ts: seq<string>)
    ensures Sum(ts, FieldIn([], LineMatches())) == 0
    ensures Sum(ts, FieldIn([], LineFor())) == 0
    ensures Sum(ts, FieldIn([], LineAgainst())) == 0
  {
    var none: seq<MatchRecord> := [];
    assert forall t :: LineOf(t, none) == Zero(t);
    SumAgree(ts, FieldIn(none, LineMatches()), Point("", 0));
    SumAgree(ts, FieldIn(none, LineFor()), Point("", 0));
    SumAgree(ts, FieldIn(none, LineAgainst()), Point("", 0));
    SumPointAbsent(ts);
  }

  lemma {:induction false} SumPointAbsent(ts: seq<string>)
    ensures Sum(ts, Point("", 0)) == 0
    decreases |ts|
  {
    if ts != [] {
      SumPointAbsent(ts[..|ts| - 1]);
    }
  }

  /** One more match adds its own share to each field's sum. */
  lemma SumStep(ts: seq<string>, ms: seq<MatchRecord>)
    requires ms != []
    ensures var init, m := ms[..|ms| - 1], ms[|ms| - 1];
      && Sum(ts, FieldIn(ms, LineMatches())) == Sum(ts, FieldIn(init, LineMatches())) + Sum(ts, (t: string) => Delta(t, m).matches)
      && Sum(ts, FieldIn(ms, LineFor())) == Sum(ts, FieldIn(init, LineFor())) + Sum(ts, (t: string) => Delta(t, m).goalsFor)
      && Sum(ts, FieldIn(ms, LineAgainst())) == Sum(ts, FieldIn(init, LineAgainst())) + Sum(ts, (t: string) => Delta(t, m).goalsAgainst)
  {
    var init, m := ms[..|ms| - 1], ms[|ms| - 1];
    forall i | 0 <= i < |ts|
      ensures LineOf(ts[i], ms) == Add(LineOf(ts[i], init), Delta(ts[i], m))
    {
    }
    SumAdd(ts, FieldIn(init, LineMatches()), (t: string) => Delta(t, m).matches, FieldIn(ms, LineMatches()));
    SumAdd(ts, FieldIn(init, LineFor()), (t: string) => Delta(t, m).goalsFor, FieldIn(ms, LineFor()));
    SumAdd(ts, FieldIn(init, LineAgainst()), (t: string) => Delta(t, m).goalsAgainst, FieldIn(ms, LineAgainst()));
  }

  lemma {:induction false} TableTotals(ts: seq<string>, ms: seq<MatchRecord>)
    requires Distinct(ts) && forall t :: Appears(t, ms) ==> t in ts
    ensures Sum(ts, FieldIn(ms, LineMatches())) == 2 * |ms|
    ensures Sum(ts, FieldIn(ms, LineFor())) == Sum(ms, Goals)
    ensures Sum(ts, FieldIn(ms, LineAgainst())) == Sum(ms, Goals)
    decreases |ms|
  {
    if ms == [] {
      TableTotalsEmpty(ts);
    } else {
      var init, m := ms[..|ms| - 1], ms[|ms| - 1];
      forall t | Appears(t, init)
        ensures t in ts
      {
        AppearsSnoc(ms, t);
      }
      TableTotals(ts, init);
      AppearsSnoc(ms, m.homeTeam);
      AppearsSnoc(ms, m.awayTeam);
      MatchShares(ts, m);
      SumStep(ts, ms);
    }
  }

  /** Across the table every match is played twice, once by each side, and
      the goals scored equal the goals conceded, both the season's total. */
  lemma StandingsTotals(competition: string, season: int, nodes: seq<MatchRecord>)
    ensures var sel, rows := Filter(nodes, InSeasonOf(competition, season)), StandingsOf(competition, season, nodes).standings;
      && Sum(rows, RowMatches()) == 2 * |sel|
      && Sum(rows, RowFor()) == Sum(sel, Goals)
      && Sum(rows, RowAgainst()) == Sum(sel, Goals)
  {
    var sel := Filter(nodes, InSeasonOf(competition, season));
    var ts, ls := TeamsOf(sel), LinesOf(sel);
    var sorted := Sort(ls, RanksAbove());
    SumNumbered(sorted);
    SumSort(ls, RanksAbove(), LineMatches());
    SumSort(ls, RanksAbove(), LineFor());
    SumSort(ls, RanksAbove(), LineAgainst());
    SumLines(ts, sel, LineMatches());
    SumLines(ts, sel, LineFor());
    SumLines(ts, sel, LineAgainst());
    TableTotals(ts, sel);
  }

  // ---------------------------------------------------------------------------
  // Competition winners
  // ---------------------------------------------------------------------------

  predicate Increasing(s: seq<int>) {
    forall i, j :: 0 <= i < j < |s| ==> s[i] < s[j]
  }

  /** `x` placed in an increasing sequence unless already there. */
  function InsertSeason(x: int, s: seq<int>): (r: seq<int>)
    requires Increasing(s)
    ensures Increasing(r)
    ensures forall y :: y in r <==> y in s || y == x
  {
    if s == [] then [x]
    else if x < s[0] then [x] + s
    else if x == s[0] then s
    else
      var rest := InsertSeason(x, s[1..]);
      assert forall y :: y in rest ==> s[0] < y by {
        forall y | y in rest ensures s[0] < y {
          if y != x {
            var k :| 0 <= k < |s[1..]| && s[1..][k] == y;
            assert s[k + 1] == y;
          }
        }
      }
      var r := [s[0]] + rest;
      assert forall i, j :: 0 <= i < j < |r| ==> r[i] < r[j] by {
        forall i, j | 0 <= i < j < |r| ensures r[i] < r[j] {
          assert r[j] == rest[j - 1];
          if i == 0 {
            assert r[0] == s[0] && rest[j - 1] in rest;
          } else {
            assert r[i] == rest[i - 1];
          }
        }
      }
      assert forall y :: y in s <==> y == s[0] || y in s[1..] by {
        assert s == [s[0]] + s[1..];
      }
      r
  }

  predicate HasSeason(competition: string, season: int, nodes: seq<MatchRecord>) {
    exists i :: 0 <= i < |nodes| && InSeason(competition, season, nodes[i])
  }

  lemma HasSeasonSnoc(competition: string, season: int, nodes: seq<MatchRecord>)
    requires nodes != []
    ensures var init, m := nodes[..|nodes| - 1], nodes[|nodes| - 1];
      HasSeason(competition, season, nodes) <==> HasSeason(competition, season, init) || InSeason(competition, season, m)
  {
    var init := nodes[..|nodes| - 1];
    assert forall i :: 0 <= i < |init| ==> init[i] == nodes[i];
    if HasSeason(competition, season, nodes) && !InSeason(competition, season, nodes[|nodes| - 1]) {
      var i :| 0 <= i < |nodes| && InSeason(competition, season, nodes[i]);
      assert i < |init|;
    }
  }

  /** `RETURN DISTINCT m.season ... ORDER BY m.season` over the matches of
      the competition with a season: each such season once, ascending. */
  function SeasonsOf(competition: string, nodes: seq<MatchRecord>): (r: seq<int>)
    ensures Increasing(r)
    ensures forall season :: season in r <==> HasSeason(competition, season, nodes)
  {
    if nodes == [] then []
    else
      var prev, m := SeasonsOf(competition, nodes[..|nodes| - 1]), nodes[|nodes| - 1];
      var r := if Contains(m.competition, competition) && m.season.Some? then InsertSeason(m.season.value, prev) else prev;
      assert forall season :: season in r <==> HasSeason(competition, season, nodes) by {
        forall season ensures season in r <==> HasSeason(competition, season, nodes) {
          HasSeasonSnoc(competition, season, nodes);
        }
      }
      r
  }

  /** The `start_year` and `end_year` guards, applied when truthy. */
  predicate InYears(start: Option<int>, end: Option<int>, season: int) {
    !(IntGiven(start) && season < start.value) && !(IntGiven(end) && season > end.value)
  }

  /** One entry of the `winners` list. */
  datatype Winner = Winner(season: int, winner: string, points: int, wins: int, goalsFor: int)

  /** The dict `get_competition_winners` returns. */
  datatype Winners = Winners(competition: string, totalSeasons: nat, winners: seq<Winner>)

  function WinnerFrom(season: int, top: StandingRow): Winner {
    Winner(season, top.line.team, top.line.points, top.line.wins, top.line.goalsFor)
  }

  /** What one season adds to the winners: the first row of its standings,
      when the season lies in the years and its standings are not empty. */
  function SeasonPick(competition: string, start: Option<int>, end: Option<int>, nodes: seq<MatchRecord>, season: int): Option<Winner> {
    var top := Leader(competition, season, nodes);
    if InYears(start, end, season) && top.Some? then Some(WinnerFrom(season, top.value)) else None
  }

  /** The first row of a season's standings, if any. */
  function Leader(competition: string, season: int, nodes: seq<MatchRecord>): Option<StandingRow> {
    var rows := StandingsOf(competition, season, nodes).standings;
    if rows == [] then None else Some(rows[0])
  }

  /** `standings = self.get_season_standings(...)` and its first row. */
  method SeasonLeader(g: Graph, competition: string, season: int) returns (top: Option<StandingRow>)
    ensures top == Leader(competition, season, g.matches)
  {
    var standings := GetSeasonStandings(g, competition, season);
    if standings.standings != [] {
      top := Some(standings.standings[0]);
    } else {
      top := None;
    }
  }

  function PickOf(competition: string, start: Option<int>, end: Option<int>, nodes: seq<MatchRecord>): int -> Option<Winner> {
    season => SeasonPick(competition, start, end, nodes, season)
  }

  /** The seasons loop: the picks of the seasons, in order. */
  function Collect(seasons: seq<int>, pick: int -> Option<Winner>): seq<Winner> {
    if seasons == [] then []
    else
      var last := pick(seasons[|seasons| - 1]);
      Collect(seasons[..|seasons| - 1], pick) + if last.Some? then [last.value] else []
  }

  lemma CollectSnoc(seasons: seq<int>, pick: int -> Option<Winner>, i: nat)
    requires i < |seasons|
    ensures Collect(seasons[..i + 1], pick) == Collect(seasons[..i], pick) + if pick(seasons[i]).Some? then [pick(seasons[i]).value] else []
  {
    assert seasons[..i + 1][..i] == seasons[..i];
  }

  /** Every collected entry is the pick of one of the seasons. */
  lemma {:induction false} CollectLabelled(seasons: seq<int>, pick: int -> Option<Winner>)
    requires forall season :: pick(season).Some? ==> pick(season).value.season == season
    ensures forall k :: 0 <= k < |Collect(seasons, pick)| ==>
      Collect(seasons, pick)[k].season in seasons && pick(Collect(seasons, pick)[k].season) == Some(Collect(seasons, pick)[k])
    decreases |seasons|
  {
    if seasons != [] {
      var init, season := seasons[..|seasons| - 1], seasons[|seasons| - 1];
      CollectLabelled(init, pick);
      var prev := Collect(init, pick);
      var w := Collect(seasons, pick);
      forall k | 0 <= k < |w|
        ensures w[k].season in seasons && pick(w[k].season) == Some(w[k])
      {
        if k < |prev| {
          assert w[k] == prev[k];
          var j :| 0 <= j < |init| && init[j] == prev[k].season;
          assert seasons[j] == init[j];
        } else {
          assert w[k] == pick(season).value;
        }
      }
    }
  }

  /** Over increasing seasons the collected entries come in increasing
      season order. */
  lemma {:induction false} CollectIncreasing(seasons: seq<int>, pick: int -> Option<Winner>)
    requires Increasing(seasons)
    requires forall season :: pick(season).Some? ==> pick(season).value.season == season
    ensures forall i, j :: 0 <= i < j < |Collect(seasons, pick)| ==> Collect(seasons, pick)[i].season < Collect(seasons, pick)[j].season
    decreases |seasons|
  {
    if seasons != [] {
      var init, season := seasons[..|seasons| - 1], seasons[|seasons| - 1];
      assert Increasing(init) by {
        assert forall k :: 0 <= k < |init| ==> init[k] == seasons[k];
      }
      CollectIncreasing(init, pick);
      CollectLabelled(init, pick);
      var prev := Collect(init, pick);
      var w := Collect(seasons, pick);
      forall k | 0 <= k < |prev|
        ensures prev[k].season < season
      {
        var j :| 0 <= j < |init| && init[j] == prev[k].season;
        assert seasons[j] == init[j];
      }
      forall i, j | 0 <= i < j < |w|
        ensures w[i].season < w[j].season
      {
        assert w[i] == prev[i];
        if j < |prev| {
          assert w[j] == prev[j];
        } else {
          assert w[j] == pick(season).value;
        }
      }
    }
  }

  /** The pick of every season that has one is among the collected
      entries. */
  lemma {:induction false} CollectComplete(seasons: seq<int>, pick: int -> Option<Winner>)
    ensures forall k :: 0 <= k < |seasons| && pick(seasons[k]).Some? ==> pick(seasons[k]).value in Collect(seasons, pick)
    decreases |seasons|
  {
    if seasons != [] {
      var init := seasons[..|seasons| - 1];
      CollectComplete(init, pick);
      forall k | 0 <= k < |init| && pick(seasons[k]).Some?
        ensures pick(seasons[k]).value in Collect(seasons, pick)
      {
        assert init[k] == seasons[k];
      }
    }
  }

  /** Over increasing seasons, with picks labelled by their season, the
      collected entries are the picks, in increasing season order, one for
      every season that has a pick. */
  lemma CollectFacts(seasons: seq<int>, pick: int -> Option<Winner>)
    requires Increasing(seasons)
    requires forall season :: pick(season).Some? ==> pick(season).value.season == season
    ensures forall k :: 0 <= k < |Collect(seasons, pick)| ==>
      Collect(seasons, pick)[k].season in seasons && pick(Collect(seasons, pick)[k].season) == Some(Collect(seasons, pick)[k])
    ensures forall i, j :: 0 <= i < j < |Collect(seasons, pick)| ==> Collect(seasons, pick)[i].season < Collect(seasons, pick)[j].season
    ensures forall k :: 0 <= k < |seasons| && pick(seasons[k]).Some? ==> pick(seasons[k]).value in Collect(seasons, pick)
  {
    CollectLabelled(seasons, pick);
    CollectIncreasing(seasons, pick);
    CollectComplete(seasons, pick);
  }

  /** `get_competition_winners(competition, start_year, end_year)` over the
      match nodes. */
  function WinnersOf(competition: string, start: Option<int>, end: Option<int>, nodes: seq<MatchRecord>): Winners {
    var w := Collect(SeasonsOf(competition, nodes), PickOf(competition, start, end, nodes));
    Winners(competition, |w|, w)
  }

  /** One pass of the seasons loop: the seasons outside the years are
      skipped, the others give the leader of their standings, if any. */
  method SeasonWinner(g: Graph, competition: string, start: Option<int>, end: Option<int>, season: int)
    returns (pick: Option<Winner>)
    ensures pick == PickOf(competition, start, end, g.matches)(season)
  {
    if IntGiven(start) && season < start.value {
      return None;
    }
    if IntGiven(end) && season > end.value {
      return None;
    }
    var leader := SeasonLeader(g, competition, season);
    assert InYears(start, end, season);
    if leader.Some? {
      var top := leader.value;
      pick := Some(Winner(season, top.line.team, top.line.points, top.line.wins, top.line.goalsFor));
      assert pick == Some(WinnerFrom(season, Leader(competition, season, g.matches).value));
    } else {
      pick := None;
    }
    assert pick == SeasonPick(competition, start, end, g.matches, season);
  }

  /** `get_competition_winners(competition, start_year, end_year)`: for each
      season of the competition in the years, the leader of its
      standings. */
  method GetCompetitionWinners(g: Graph, competition: string, start: Option<int>, end: Option<int>) returns (r: Winners)
    ensures r == WinnersOf(competition, start, end, g.matches)
  {
    var seasons := SeasonsOf(competition, g.matches);
    var winners: seq<Winner> := [];
    var i := 0;
    while i < |seasons|
      invariant 0 <= i <= |seasons|
      invariant winners == Collect(seasons[..i], PickOf(competition, start, end, g.matches))
    {
      CollectSnoc(seasons, PickOf(competition, start, end, g.matches), i);
      var pick := SeasonWinner(g, competition, start, end, seasons[i]);
      if pick.Some? {
        winners := winners + [pick.value];
      }
      i := i + 1;
    }
    assert seasons[..i] == seasons;
    r := Winners(competition, |winners|, winners);
  }

  /** A season of the competition has teams in its standings, so its
      standings are never empty. */
  lemma SeasonHasStandings(competition: string, season: int, nodes: seq<MatchRecord>)
    requires HasSeason(competition, season, nodes)
    ensures StandingsOf(competition, season, nodes).standings != []
  {
    var sel := Filter(nodes, InSeasonOf(competition, season));
    var i :| 0 <= i < |nodes| && InSeason(competition, season, nodes[i]);
    assert InSeasonOf(competition, season)(nodes[i]);
    var j :| 0 <= j < |sel| && sel[j] == nodes[i];
    assert Appears(sel[j].homeTeam, sel);
    StandingsRows(competition, season, nodes);
  }

  /** The first row of a season's standings ranks above every row, and so
      has at least as many points as any team. */
  lemma LeaderRanksFirst(competition: string, season: int, nodes: seq<MatchRecord>)
    requires StandingsOf(competition, season, nodes).standings != []
    ensures var rows := StandingsOf(competition, season, nodes).standings;
      forall k :: 0 < k < |rows| ==> Above(rows[0].line, rows[k].line) && rows[0].line.points >= rows[k].line.points
  {
    StandingsRows(competition, season, nodes);
  }

  /** The collected entries are the picks of their seasons. */
  lemma CollectPicks(seasons: seq<int>, pick: int -> Option<Winner>)
    requires Increasing(seasons)
    requires forall season :: pick(season).Some? ==> pick(season).value.season == season
    ensures forall k :: 0 <= k < |Collect(seasons, pick)| ==> pick(Collect(seasons, pick)[k].season) == Some(Collect(seasons, pick)[k])
  {
    CollectFacts(seasons, pick);
  }

  /** When exactly the seasons in the years have picks, the collected
      entries cover those seasons, in increasing order. */
  lemma CollectCovers(seasons: seq<int>, pick: int -> Option<Winner>, start: Option<int>, end: Option<int>)
    requires Increasing(seasons)
    requires forall season :: pick(season).Some? ==> pick(season).value.season == season && InYears(start, end, season)
    requires forall k :: 0 <= k < |seasons| && InYears(start, end, seasons[k]) ==> pick(seasons[k]).Some?
    ensures forall k :: 0 <= k < |Collect(seasons, pick)| ==>
      Collect(seasons, pick)[k].season in seasons && InYears(start, end, Collect(seasons, pick)[k].season)
    ensures forall i, j :: 0 <= i < j < |Collect(seasons, pick)| ==> Collect(seasons, pick)[i].season < Collect(seasons, pick)[j].season
    ensures forall k :: 0 <= k < |seasons| && InYears(start, end, seasons[k]) ==>
      exists j :: 0 <= j < |Collect(seasons, pick)| && Collect(seasons, pick)[j].season == seasons[k]
  {
    CollectFacts(seasons, pick);
    var c := Collect(seasons, pick);
    forall k | 0 <= k < |seasons| && InYears(start, end, seasons[k])
      ensures exists j :: 0 <= j < |c| && c[j].season == seasons[k]
    {
      var j :| 0 <= j < |c| && c[j] == pick(seasons[k]).value;
    }
  }

  /** Each pick is labelled with its own season, which lies in the years. */
  lemma PicksLabelled(competition: string, start: Option<int>, end: Option<int>, nodes: seq<MatchRecord>)
    ensures var pick := PickOf(competition, start, end, nodes);
      forall season :: pick(season).Some? ==> pick(season).value.season == season && InYears(start, end, season)
  {
  }

  /** A season's pick is its standings' leader. */
  lemma PickedLeader(competition: string, start: Option<int>, end: Option<int>, nodes: seq<MatchRecord>,
                     pick: int -> Option<Winner>, w: Winner)
    requires pick == PickOf(competition, start, end, nodes) && pick(w.season) == Some(w)
    ensures var rows := StandingsOf(competition, w.season, nodes).standings;
      && rows != []
      && w == WinnerFrom(w.season, rows[0])
      && forall j :: 0 <= j < |rows| ==> w.points >= rows[j].line.points
  {
    assert SeasonPick(competition, start, end, nodes, w.season) == Some(w);
    LeaderRanksFirst(competition, w.season, nodes);
  }

  /** Every season of the competition in the years has a pick. */
  lemma SeasonsPicked(competition: string, start: Option<int>, end: Option<int>, nodes: seq<MatchRecord>,
                      seasons: seq<int>, pick: int -> Option<Winner>)
    requires seasons == SeasonsOf(competition, nodes) && pick == PickOf(competition, start, end, nodes)
    ensures forall k :: 0 <= k < |seasons| && InYears(start, end, seasons[k]) ==> pick(seasons[k]).Some?
  {
    forall k | 0 <= k < |seasons| && InYears(start, end, seasons[k])
      ensures SeasonPick(competition, start, end, nodes, seasons[k]).Some?
    {
      SeasonHasStandings(competition, seasons[k], nodes);
    }
  }

  /** `get_competition_winners` lists one winner per season of the
      competition within the years, in increasing season order. */
  lemma WinnersSeasons(competition: string, start: Option<int>, end: Option<int>, nodes: seq<MatchRecord>)
    ensures var r := WinnersOf(competition, start, end, nodes);
      && r.totalSeasons == |r.winners|
      && (forall k :: 0 <= k < |r.winners| ==>
            HasSeason(competition, r.winners[k].season, nodes) && InYears(start, end, r.winners[k].season))
      && (forall i, j :: 0 <= i < j < |r.winners| ==> r.winners[i].season < r.winners[j].season)
      && (forall season :: HasSeason(competition, season, nodes) && InYears(start, end, season) ==>
            exists j :: 0 <= j < |r.winners| && r.winners[j].season == season)
  {
    var seasons := SeasonsOf(competition, nodes);
    PicksLabelled(competition, start, end, nodes);
    var pick := PickOf(competition, start, end, nodes);
    SeasonsPicked(competition, start, end, nodes, seasons, pick);
    CollectCovers(seasons, pick, start, end);
    var w := WinnersOf(competition, start, end, nodes).winners;
    forall season | HasSeason(competition, season, nodes) && InYears(start, end, season)
      ensures exists j :: 0 <= j < |w| && w[j].season == season
    {
      var k :| 0 <= k < |seasons| && seasons[k] == season;
    }
  }

  /** Each winner is the first row of its season's standings, with at least
      as many points as any team of that season. */
  lemma WinnersLead(competition: string, start: Option<int>, end: Option<int>, nodes: seq<MatchRecord>)
    ensures var r := WinnersOf(competition, start, end, nodes);
      forall k :: 0 <= k < |r.winners| ==>
        var rows := StandingsOf(competition, r.winners[k].season, nodes).standings;
        && rows != []
        && r.winners[k] == WinnerFrom(r.winners[k].season, rows[0])
        && forall j :: 0 <= j < |rows| ==> r.winners[k].points >= rows[j].line.points
  {
    var pick := PickOf(competition, start, end, nodes);
    PicksLabelled(competition, start, end, nodes);
    var seasons := SeasonsOf(competition, nodes);
    CollectPicks(seasons, pick);
    var w := Collect(seasons, pick);
    assert WinnersOf(competition, start, end, nodes).winners == w;
    forall k | 0 <= k < |w|
      ensures var rows := StandingsOf(competition, w[k].season, nodes).standings;
        && rows != []
        && w[k] == WinnerFrom(w[k].season, rows[0])
        && forall j :: 0 <= j < |rows| ==> w[k].points >= rows[j].line.points
    {
      PickedLeader(competition, start, end, nodes, pick, w[k]);
    }
  }
}
