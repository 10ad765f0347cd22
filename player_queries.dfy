/** The player queries of `QueryExecutor`: the filtered player search and
    the top-rated players. Each given argument adds one condition to the
    WHERE clause; a condition on a null property is null in Cypher, so a
    player without that property is never returned by a query that
    filters on it. */
module PlayerQueries {
  import opened Wrappers
  import opened Text
  import opened Normalization
  import opened Models
  import opened Sorting
  import opened Selection

  /** `toLower(s) CONTAINS toLower(sub)`. */
  predicate ContainsFolded(s: string, sub: string) {
    Contains(Lower(s), Lower(sub))
  }

  /** `ORDER BY p.overall DESC`: `a` may come ahead of `b`. A descending
      sort puts a null rating first, and ties may come in any order. */
  predicate RatesAtLeast(a: Player, b: Player) {
    a.overall.None? || (b.overall.Some? && b.overall.value <= a.overall.value)
  }

  function ByRating(): (Player, Player) -> bool {
    (a: Player, b: Player) => RatesAtLeast(a, b)
  }

  lemma ByRatingOrders()
    ensures TotalPreorder(ByRating())
  {
    assert forall a, b :: ByRating()(a, b) == RatesAtLeast(a, b);
  }

  /** The optional arguments of `find_players`. */
  datatype PlayerFilter = PlayerFilter(
    name: Option<string>, nationality: Option<string>, club: Option<string>,
    position: Option<string>, minOverall: Option<int>, maxOverall: Option<int>)

  /** The WHERE clause of `find_players`, with `clubKey`, the normalized
      club argument, compared for equality beside the case-insensitive
      containment of the raw argument. */
  predicate Wanted(clubKey: string, f: PlayerFilter, p: Player) {
    && (StrGiven(f.name) ==> ContainsFolded(p.name, f.name.value))
    && (StrGiven(f.nationality) ==> p.nationality.Some? && ContainsFolded(p.nationality.value, f.nationality.value))
    && (StrGiven(f.club) ==> p.club.Some? && (p.club.value == clubKey || ContainsFolded(p.club.value, f.club.value)))
    && (StrGiven(f.position) ==> p.position.Some? && Contains(p.position.value, f.position.value))
    && (IntGiven(f.minOverall) ==> p.overall.Some? && p.overall.value >= f.minOverall.value)
    && (IntGiven(f.maxOverall) ==> p.overall.Some? && p.overall.value <= f.maxOverall.value)
  }

  function WantedBy(clubKey: string, f: PlayerFilter): Player -> bool {
    p => Wanted(clubKey, f, p)
  }

  /** The dict `find_players` returns. */
  datatype FoundPlayers = FoundPlayers(totalFound: nat, filters: PlayerFilter, players: seq<Player>)

  /** The normalized club argument; the code normalizes it only when one is
      given. */
  function ClubKey(norm: Normalizer, club: Option<string>): string {
    if StrGiven(club) then norm(club.value) else ""
  }

  /** `find_players(...)`: at most `limit` players, each passing every
      given filter; when fewer come back, they are all such players. Their
      order is stated by `FindPlayersByRating`. */
  function FindPlayers(norm: Normalizer, g: Graph, f: PlayerFilter, limit: nat): (r: FoundPlayers)
    ensures r.filters == f && r.totalFound == |r.players| <= limit
    ensures forall i :: 0 <= i < |r.players| ==> r.players[i] in g.players && Wanted(ClubKey(norm, f.club), f, r.players[i])
    ensures |r.players| < limit ==>
      forall i :: 0 <= i < |g.players| && Wanted(ClubKey(norm, f.club), f, g.players[i]) ==> g.players[i] in r.players
  {
    var ps := SelectSorted(g.players, WantedBy(ClubKey(norm, f.club), f), ByRating(), limit);
    FoundPlayers(|ps|, f, ps)
  }

  /** The players come by rating, highest first, and no wanted player the
      limit left out is rated above one returned. */
  lemma FindPlayersByRating(norm: Normalizer, g: Graph, f: PlayerFilter, limit: nat)
    ensures var ps := FindPlayers(norm, g, f, limit).players;
      forall i, j :: 0 <= i < j < |ps| ==> RatesAtLeast(ps[i], ps[j])
    ensures var ps := FindPlayers(norm, g, f, limit).players;
      forall p, k :: p in g.players && Wanted(ClubKey(norm, f.club), f, p) && p !in ps && 0 <= k < |ps| ==>
        RatesAtLeast(ps[k], p)
  {
    ByRatingOrders();
    SelectSortedOrdered(g.players, WantedBy(ClubKey(norm, f.club), f), ByRating(), limit);
  }

  /** Without arguments the WHERE clause is `TRUE`: the first `limit`
      players in rating order. */
  lemma NoFilterReturnsAll(norm: Normalizer, g: Graph, limit: nat)
    ensures FindPlayers(norm, g, PlayerFilter(None, None, None, None, None, None), limit).players
         == Limit(Sort(g.players, ByRating()), limit)
  {
    var f := PlayerFilter(None, None, None, None, None, None);
    var ps := g.players;
    assert Filter(ps, WantedBy(ClubKey(norm, f.club), f)) == ps by {
      FilterAll(ps, WantedBy(ClubKey(norm, f.club), f));
    }
  }

  /** A club argument finds the players whose club the loader normalized
      from the same spelling. */
  lemma ClubSpellingFindsNormalizedClub(norm: Normalizer, f: PlayerFilter, p: Player, raw: string)
    requires f.club == Some(raw) && raw != ""
    requires PlayerToDict(norm, p).club == Some(norm(raw))
    ensures var q := PlayerToDict(norm, p);
      Wanted(ClubKey(norm, f.club), f.(name := None, nationality := None, position := None, minOverall := None, maxOverall := None), q)
  {
  }

  /** A minimum or maximum rating of 0 is not truthy and filters nothing,
      and a player without a rating is never returned once a truthy bound
      is given. */
  lemma RatingBounds(clubKey: string, f: PlayerFilter, p: Player)
    ensures Wanted(clubKey, f.(minOverall := Some(0)), p) == Wanted(clubKey, f.(minOverall := None), p)
    ensures Wanted(clubKey, f.(maxOverall := Some(0)), p) == Wanted(clubKey, f.(maxOverall := None), p)
    ensures p.overall.None? && (IntGiven(f.minOverall) || IntGiven(f.maxOverall)) ==> !Wanted(clubKey, f, p)
  {
  }

  // ---------------------------------------------------------------------------
  // Top players
  // ---------------------------------------------------------------------------

  /** The WHERE clause of `get_top_players_by_rating`: rated players, with a
      case-insensitive containment test on nationality and on club (here
      the club argument is not normalized). */
  predicate TopWanted(nationality: Option<string>, club: Option<string>, p: Player) {
    && p.overall.Some?
    && (StrGiven(nationality) ==> p.nationality.Some? && ContainsFolded(p.nationality.value, nationality.value))
    && (StrGiven(club) ==> p.club.Some? && ContainsFolded(p.club.value, club.value))
  }

  function TopWantedBy(nationality: Option<string>, club: Option<string>): Player -> bool {
    p => TopWanted(nationality, club, p)
  }

  /** The dict `get_top_players_by_rating` returns. */
  datatype TopPlayers = TopPlayers(nationality: Option<string>, club: Option<string>, total: nat, players: seq<Player>)

  /** `get_top_players_by_rating(nationality, club, limit)`: at most `limit`
      rated players passing the given filters; `TopPlayersByRating` states
      that they are the highest rated, in order. */
  function GetTopPlayersByRating(g: Graph, nationality: Option<string>, club: Option<string>, limit: nat): (r: TopPlayers)
    ensures r.nationality == nationality && r.club == club && r.total == |r.players| <= limit
    ensures forall i :: 0 <= i < |r.players| ==> r.players[i] in g.players && r.players[i].overall.Some?
    ensures forall i :: 0 <= i < |r.players| ==> TopWanted(nationality, club, r.players[i])
    ensures |r.players| < limit ==>
      forall i :: 0 <= i < |g.players| && TopWanted(nationality, club, g.players[i]) ==> g.players[i] in r.players
  {
    var ps := SelectSorted(g.players, TopWantedBy(nationality, club), ByRating(), limit);
    TopPlayers(nationality, club, |ps|, ps)
  }

  /** The top-rated players: ratings never increase down the list, and no
      wanted player the limit left out is rated above one returned. */
  lemma TopPlayersByRating(g: Graph, nationality: Option<string>, club: Option<string>, limit: nat)
    ensures var ps := GetTopPlayersByRating(g, nationality, club, limit).players;
      forall i, j :: 0 <= i < j < |ps| ==> ps[i].overall.Some? && ps[j].overall.Some? && ps[i].overall.value >= ps[j].overall.value
    ensures var ps := GetTopPlayersByRating(g, nationality, club, limit).players;
      forall p, k :: p in g.players && TopWanted(nationality, club, p) && p !in ps && 0 <= k < |ps| ==>
        p.overall.value <= ps[k].overall.value
  {
    ByRatingOrders();
    SelectSortedOrdered(g.players, TopWantedBy(nationality, club), ByRating(), limit);
  }
}
