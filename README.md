# Brazilian soccer knowledge graph, modelled in Dafny

The system loads Brazilian football data (Brasileirão, Copa do Brasil and
Copa Libertadores matches, historical Brasileirão results, an extended
statistics dataset and FIFA player ratings) from CSV files into a Neo4j
graph. A query layer then answers questions over it: head-to-head records,
team records and statistics, players, standings, champions, biggest wins,
league statistics and top-scoring teams.

This project models three parts of the system:

- **Normalizing team names** (`Normalization`). All team names pass through
  one normalizer, which:
  - strips whitespace;
  - removes a two-letter state suffix;
  - transliterates to ASCII;
  - collapses runs of whitespace;
  - maps known aliases.

  The transliteration table (unidecode) is not modelled. It is the
  parameter `tr: char -> string`. The rest of the model takes the
  normalizer as a plain function value, `Normalizer`. `NormalizerOf(tr)`
  gives the real normalizer.
- **The loader** (`Ingestion`). It is a class `DataLoader` with three
  fields:
  - a team cache (`teamsCache`, `order`);
  - the normalizer;
  - a `Store` holding what it has written to the graph: Match writes in
    order, Team, Competition and Player nodes keyed as the graph's `MERGE`
    keys them, and the player batches sent.

  The CSV files are inputs: sequences of rows whose cells are already
  read. The `_load_*` loops, the FIFA loop with its 500-player batches and
  `load_all` are `while` loops. Each is proved against a specification
  function of the rows.
- **The queries** (`MatchQueries`, `TeamQueries`, `PlayerQueries`,
  `CompetitionQueries`, `Analytics`). The graph is a `Graph` value: the
  sequences of Match, Player and Team node property records.
  - Each Cypher read `MATCH … WHERE … ORDER BY … LIMIT n` becomes `Filter`
    and `Limit` (`Selection`) over those sequences.
  - An order computed in the query (goal margin, total goals) becomes a
    stable insertion sort (`Sorting`) under a total preorder.
  - The Python post-processing loops (standings, winners, formatting) are
    methods with loop invariants, proved against functions that say what
    they compute.
  - For every query, lemmas state what the result means. Counters add up.
    Every returned item passes the filters. When fewer than `limit` items
    come back, nothing was cut. Sorted results come first, and no item
    left out ranks above one kept.

The repository's tests rely on normalizing twice changing nothing:
tests/test_match_queries.py:277-291 normalizes the stored team names again
and compares them with the normalized argument. The code does not have this
property in general, and the model follows the code.
`"Atletico Mineiro"` normalizes to `"Atletico-MG"`, and normalizing that
again removes the `-MG` suffix and gives `"Atletico"`.
`Normalization.NormalizeIdempotentIff` states exactly when a second pass
changes nothing: when the first result does not end in a state suffix.

## Model

| member | source | states |
|---|---|---|
| Text.Lower | src/brazilian_soccer_mcp/queries.py:401-407 | `toLower` keeps the length and maps every character by `LowerChar` (ASCII capitals to lower case, everything else unchanged) |
| Text.ContainsAt | src/brazilian_soccer_mcp/queries.py:176-178 | Cypher `CONTAINS` holds exactly when the needle occurs at some position of the haystack |
| Text.Take | src/brazilian_soccer_mcp/database.py:277-279 | Python slicing `[:n]` gives a prefix of length min(n, len) |
| Text.StrLeTotal | src/brazilian_soccer_mcp/queries.py:262-266 | Cypher string comparison is total: any two strings are ordered one way or the other |
| Text.StrLeTrans | src/brazilian_soccer_mcp/queries.py:262-266 | Cypher string comparison is transitive |
| Text.LongerExtensionNotLe | src/brazilian_soccer_mcp/queries.py:262-266 | a string that extends `b` is not `<= b` (why a datetime on the end date fails `<= end_date`) |
| Normalization.Strip | src/brazilian_soccer_mcp/models.py:62 | `strip()` leaves no whitespace at either end, and gives `""` exactly when the input is all whitespace |
| Normalization.Unaccent | src/brazilian_soccer_mcp/models.py:65 | the transliteration keeps ASCII text unchanged and produces ASCII when every replacement is ASCII |
| Normalization.SplitJoinIdentity | src/brazilian_soccer_mcp/models.py:68 | `' '.join(s.split())` gives back a string that already has single blanks between words |
| Normalization.CollapseSpaces | src/brazilian_soccer_mcp/models.py:68 | the result has single blanks between words and none at the ends; it is no longer than the input, keeps ASCII text ASCII, and changes nothing when the spacing is already clean |
| Normalization.AliasTargetsAsKeys | src/brazilian_soccer_mcp/models.py:71-83 | the only alias values that are also keys are `Atletico-MG` and `Athletico-PR`; both map to themselves and both end in a state suffix |
| Normalization.AliasNeverLengthens | src/brazilian_soccer_mcp/models.py:71-83 | no alias is longer than the name it replaces |
| Normalization.ApplyAlias | src/brazilian_soccer_mcp/models.py:85 | `mappings.get(name, name)` keeps clean spacing and ASCII, never lengthens, and leaves a name that is not a key unchanged |
| Normalization.Normalize | src/brazilian_soccer_mcp/models.py:42-85 | empty input gives `""`; the result always has clean spacing, and is ASCII when the transliteration is |
| Normalization.NormalizeEmpty | src/brazilian_soccer_mcp/models.py:58-59 | the empty name normalizes to the empty string |
| Normalization.NormalizeClean | src/brazilian_soccer_mcp/models.py:62-85 | for a clean ASCII name, normalizing is removing the suffix and then applying the alias |
| Normalization.NormalizeAsciiShorter | src/brazilian_soccer_mcp/models.py:62-85 | an ASCII name normalizes to something no longer than its stripped, suffix-free form |
| Normalization.NormalizedAliasKey | src/brazilian_soccer_mcp/models.py:71-85 | a normalized name that is still an alias key ends in a state suffix |
| Normalization.NormalizeIdempotentIff | src/brazilian_soccer_mcp/models.py:42-85 | normalizing a normalized name changes nothing exactly when it does not end in a state suffix |
| Normalization.SuffixExample | src/brazilian_soccer_mcp/models.py:62 | `Palmeiras-SP` normalizes to `Palmeiras` |
| Normalization.AliasExample | src/brazilian_soccer_mcp/models.py:71-85 | `Atletico Mineiro` normalizes to `Atletico-MG` |
| Normalization.AliasKeySuffixExample | src/brazilian_soccer_mcp/models.py:62-85 | `Atletico-MG` itself normalizes to `Atletico`: the suffix goes before the mapping is consulted |
| Normalization.DoubleSuffixExample | src/brazilian_soccer_mcp/models.py:62 | `Atletico-MG-SP` loses only its last suffix |
| Normalization.NotIdempotentExample | src/brazilian_soccer_mcp/models.py:42-85 | normalizing `Atletico Mineiro` twice gives `Atletico`, which differs from normalizing it once |
| Models.TwoDigits | src/brazilian_soccer_mcp/database.py:276 | `%m`, `%d` render exactly two digits |
| Models.FourDigits | src/brazilian_soccer_mcp/database.py:276 | `%Y` renders exactly four digits |
| Models.CompactDate | src/brazilian_soccer_mcp/database.py:276 | `strftime("%Y%m%d")` is eight digits |
| Models.IsoDate | src/brazilian_soccer_mcp/models.py:225 | the date part of `isoformat()` is ten characters with `-` at positions 4 and 7 |
| Models.IsoFormat | src/brazilian_soccer_mcp/models.py:225 | `isoformat()` is the ISO date, `T`, the time with `:` at positions 13 and 16, then `.ffffff` when there are microseconds and the signed `HH:MM` offset when the datetime is aware; it is exactly 19 characters when it has neither |
| Models.Team.constructor | src/brazilian_soccer_mcp/models.py:89-105 | a new Team has the normalized name and keeps the original names, state and founding year given |
| Models.Team.AddOriginalName | src/brazilian_soccer_mcp/models.py:107-109 | adds the spelling to the original names; nothing else changes |
| Models.ListNames | src/brazilian_soccer_mcp/models.py:115 | `list(set)` lists every element once |
| Models.Team.ToDict | src/brazilian_soccer_mcp/models.py:111-118 | the dict carries name, state and founding year, and lists each original name exactly once |
| Models.MatchResult.Label | src/brazilian_soccer_mcp/models.py:208-214 | the stored result is one of `home_win`, `away_win`, `draw` |
| Models.Match.Result | src/brazilian_soccer_mcp/models.py:208-214 | home win exactly when the home side scored more, away win exactly when the away side did, draw exactly when level |
| Models.MakeMatch | src/brazilian_soccer_mcp/models.py:203-205 | building a Match normalizes both team names and keeps every other field |
| Models.MatchToDict | src/brazilian_soccer_mcp/models.py:221-236 | the node properties copy the fields; the datetime is null exactly when absent, otherwise at least 19 characters starting with its ISO date, and exactly 19 when it has no microseconds and no offset; `result` is named after the winner; `total_goals` is the sum of the goals |
| Models.PlayerToDict | src/brazilian_soccer_mcp/models.py:155-170 | the club is null exactly when it is missing or empty, otherwise it is normalized; nothing else changes |
| Models.CompetitionToDict | src/brazilian_soccer_mcp/models.py:255-262 | `short_name or name`: the short name when it is non-empty, else the name; the other fields are copied |
| Models.CompetitionNamesDistinct | src/brazilian_soccer_mcp/models.py:266-286 | the three predefined competitions have distinct names, so their MERGE keys differ |
| Ingestion.SafeInt | src/brazilian_soccer_mcp/database.py:236-243 | a numeric cell gives its value; a missing or unparsable cell gives the default |
| Ingestion.OptionalInt | src/brazilian_soccer_mcp/database.py:371 | `_safe_int(v) if pd.notna(v) else None`: null exactly for a missing cell, 0 for an unparsable one |
| Ingestion.MatchId | src/brazilian_soccer_mcp/database.py:268-280 | the id starts with the eight-digit `%Y%m%d` date, or `unknown` when there is no date, followed by `_` |
| Ingestion.MatchIdSuffix | src/brazilian_soccer_mcp/database.py:279-280 | the id ends in `_` followed by the first five characters of the source tag |
| Ingestion.TagPrefixesDistinct | src/brazilian_soccer_mcp/database.py:279 | the five loaders' tags differ in their first five characters |
| Ingestion.MatchIdsOfSourcesDiffer | src/brazilian_soccer_mcp/database.py:268-280 | matches loaded from different sources never get the same id, whatever their date and teams |
| Ingestion.MatchIdTruncates | src/brazilian_soccer_mcp/database.py:277 | two home names whose normalized forms agree on their first ten characters give the same id |
| Ingestion.CompetitionForTournament | src/brazilian_soccer_mcp/database.py:512-525 | Copa do Brasil exactly when the lower-cased tournament mentions `copa` and `brasil`; otherwise Libertadores exactly when it mentions `libertadores`; otherwise Brasileirão |
| Ingestion.Statistics | src/brazilian_soccer_mcp/database.py:527-531 | the statistics hold exactly the known columns present and not null, each read by `_safe_int` |
| Ingestion.BuildMatch | src/brazilian_soccer_mcp/database.py:362-372 | the Match a loader builds from a row, per source: generated id, normalized teams, goals by `_safe_int`, competition, season and round, stadium only from the historical file, statistics only from the extended file (lines 400-410, 439-449, 478-491, 533-542) |
| Ingestion.PlayerOfRow | src/brazilian_soccer_mcp/database.py:569-578 | a FIFA row becomes a player with id and ratings read by `_safe_int`, the club name normalized, and no jersey, height, weight or foot |
| Ingestion.PlayersOf | src/brazilian_soccer_mcp/database.py:564-580 | at most one player per row |
| Ingestion.SightFacts | src/brazilian_soccer_mcp/database.py:245-266 | one `_get_or_create_team`: the normalized key is cached with the spelling among its original names. A known team keeps its name and state. A new one takes the state given. No other entry changes |
| Ingestion.Sight | src/brazilian_soccer_mcp/database.py:245-266 | one `_get_or_create_team` call on the cache: a known key gains the raw spelling; a new key gets a team with the normalized name, that spelling and the state given |
| Ingestion.SightAllKeys | src/brazilian_soccer_mcp/database.py:308-309 | after a run of sightings the cache keys are the old keys plus the normalized names seen, which is what `len(self._teams_cache)` counts |
| Ingestion.StateOfFirstSighting | src/brazilian_soccer_mcp/database.py:257-262 | a team new to the cache keeps the state of its first sighting |
| Ingestion.SightAllKeepsKnown | src/brazilian_soccer_mcp/database.py:263-264 | a cached team keeps its name and state whatever is sighted later |
| Ingestion.OriginalNamesOfSightings | src/brazilian_soccer_mcp/database.py:245-266 | a team's original names are exactly its earlier names plus every spelling seen that normalizes to it |
| Ingestion.RowSightings | src/brazilian_soccer_mcp/database.py:355-360 | a row with both team names gives two sightings (home, then away); a skipped row gives none |
| Ingestion.EmptyStateCellReachesTeam | src/brazilian_soccer_mcp/database.py:359-360 | the state cell is passed on unconverted: a team first seen in a row whose state cell is empty is cached with the state NaN |
| Ingestion.FileWrites | src/brazilian_soccer_mcp/database.py:362-375 | every Match write of a file comes from that source and from a row with both team names |
| Ingestion.CountLoadableBounds | src/brazilian_soccer_mcp/database.py:350-376 | the count a loader returns is at most the number of rows, and equals it exactly when no row is skipped |
| Ingestion.SightingsPerCountedRow | src/brazilian_soccer_mcp/database.py:355-375 | two team sightings per counted row |
| Ingestion.WritesPerCountedRow | src/brazilian_soccer_mcp/database.py:374-375 | one Match write per counted row |
| Ingestion.StoreMatchesKeys | src/brazilian_soccer_mcp/database.py:595-632 | after the writes, the Match nodes are the old ones plus one per distinct id; nodes whose id was not written are unchanged |
| Ingestion.StoreMatches | src/brazilian_soccer_mcp/database.py:595-632 | the Match nodes after the writes in order, merged on the id: the last write of an id leaves its properties |
| Ingestion.StoreMatchesLast | src/brazilian_soccer_mcp/database.py:595-632 | the node for an id holds the properties of the last match written with that id |
| Ingestion.IdsBound | src/brazilian_soccer_mcp/database.py:595-632 | there are no more distinct match ids than writes |
| Ingestion.ChunksFacts | src/brazilian_soccer_mcp/database.py:561-590 | the FIFA batches are non-empty, hold at most 500 players, all but the last hold exactly 500, and together they are the players in order |
| Ingestion.Chunks | src/brazilian_soccer_mcp/database.py:561-590 | the players in batches of 500 as the loader flushes them: full batches, then the remainder when there is one |
| Ingestion.ChunksOfFull | src/brazilian_soccer_mcp/database.py:582-590 | full batches sent in the loop plus the final partial one are exactly the 500-chunks of all the players |
| Ingestion.UpsertPlayersLast | src/brazilian_soccer_mcp/database.py:634-651 | after the batches, a player id is in the graph exactly when it was there or was sent; it holds the last player sent with that id; ids not sent are unchanged |
| Ingestion.WrittenTeamsKeys | src/brazilian_soccer_mcp/database.py:329-338 | `_create_teams` writes one node per team name in the cache, no more nodes than cache entries, each holding its own name |
| Ingestion.WrittenTeams | src/brazilian_soccer_mcp/database.py:329-338 | the Team nodes `_create_teams` writes: each cached key in insertion order, merged on its team's name, so a later team of the same name overwrites the node |
| Ingestion.CompetitionNodes | src/brazilian_soccer_mcp/database.py:317-327 | `_create_competitions` writes the three predefined competitions, each with its `to_dict()` properties; into an empty graph that makes exactly three nodes |
| Ingestion.WritesInOrder | src/brazilian_soccer_mcp/database.py:301-305 | the Match writes of `load_all` are those of the five loaders, in call order |
| Ingestion.LoadAllSightings | src/brazilian_soccer_mcp/database.py:301-305 | the team cache after `load_all` is the cache threaded through the five loaders in call order |
| Ingestion.DataLoader.constructor | src/brazilian_soccer_mcp/database.py:199-209 | a new loader has an empty cache and has written nothing |
| Ingestion.DataLoader.GetOrCreateTeam | src/brazilian_soccer_mcp/database.py:245-266 | returns the normalized name; the cache becomes the one-sighting update; a new key is appended to the insertion order |
| Ingestion.DataLoader.LoadRow | src/brazilian_soccer_mcp/database.py:350-375 | one loop iteration: a row lacking a team is skipped; otherwise both teams are sighted and one Match written |
| Ingestion.DataLoader.LoadRowAt | src/brazilian_soccer_mcp/database.py:350-375 | the pass over row `i` of a match loop: the row loads exactly when both team names are present, and the cache and the Match writes extend from those of the first `i` rows to those of the first `i + 1` |
| Ingestion.DataLoader.LoadMatchFile | src/brazilian_soccer_mcp/database.py:340-378 | one `_load_*_matches` call: a missing file loads nothing; otherwise it returns the number of rows with both teams, the cache takes the file's sightings in row order, and the store gains the file's Match writes; nothing else changes (same for lines 380-548) |
| Ingestion.DataLoader.CreateCompetitions | src/brazilian_soccer_mcp/database.py:317-327 | the Competition nodes become the upsert of the three predefined competitions; nothing else changes |
| Ingestion.DataLoader.CreateTeams | src/brazilian_soccer_mcp/database.py:329-338 | one Team node per cached team, its state and original names from `to_dict()`; an existing node keeps its `founded`, a new one has none; other nodes unchanged |
| Ingestion.DataLoader.WriteTeamAt | src/brazilian_soccer_mcp/database.py:336-337 | one pass of the team loop: the node named after the next cached team gets its fields; the nodes of the earlier passes keep their fields unless the same name is written again; nodes not written are unchanged; `founded` is never written |
| Ingestion.DataLoader.FoundedMerge | src/brazilian_soccer_mcp/database.py:331-335 | `MERGE ... SET t.state, t.original_names` keeps the `founded` a node had, and a new node has none |
| Ingestion.DataLoader.CreatePlayerBatch | src/brazilian_soccer_mcp/database.py:634-651 | the batch is upserted by id and recorded as one batch sent |
| Ingestion.DataLoader.AppendToBatch | src/brazilian_soccer_mcp/database.py:580-585 | appending the 500th player sends the batch and empties it; otherwise nothing is sent |
| Ingestion.DataLoader.SendFullBatches | src/brazilian_soccer_mcp/database.py:564-585 | the FIFA loop sends only full batches of 500 and keeps fewer than 500 back; what was sent followed by what was kept is the players of the rows, in order |
| Ingestion.DataLoader.LoadFifaPlayers | src/brazilian_soccer_mcp/database.py:550-593 | returns the number of players with an id; the store gains them upserted by id, sent as the 500-chunks of the players |
| Ingestion.DataLoader.LoadAll | src/brazilian_soccer_mcp/database.py:282-315 | counts 3 competitions, the sum of the five loaders' match counts, as many teams as distinct normalized names seen, and the FIFA players. The graph holds the three competitions, the Match writes in loader order, one Team node per cached team, Team nodes not rewritten unchanged, every Team node's `founded` as before, and the players in 500-batches |
| MatchQueries.OutcomesPartition | src/brazilian_soccer_mcp/queries.py:101-123 | every match is a win, a loss or a draw for the first team |
| MatchQueries.HeadToHeadConservation | src/brazilian_soccer_mcp/queries.py:57-135 | team-1 wins, team-2 wins and draws add up to the matches returned. The two goal totals add up to all goals. At most `limit` matches, each between the two teams and in the graph |
| MatchQueries.HeadToHeadOf | src/brazilian_soccer_mcp/queries.py:57-135 | the matches between the two normalized names, cut to the limit, with team-1 wins, team-2 wins and draws counted and each side's goals summed |
| MatchQueries.HeadToHeadSymmetric | src/brazilian_soccer_mcp/queries.py:57-135 | swapping the teams returns the same matches and swaps the wins and the goals |
| MatchQueries.FindMatchesBetweenTeams | src/brazilian_soccer_mcp/queries.py:57-135 | the loop's record equals the head-to-head record of the normalized names; wins, losses and draws add up, and so do the goals |
| MatchQueries.TeamMatchesArithmetic | src/brazilian_soccer_mcp/queries.py:137-235 | wins, draws and losses add up to the matches. Goal difference and points (3 per win, 1 per draw) follow from the counters. Every match passes the filters; home-only gives only home matches and away-only only away matches |
| MatchQueries.TeamMatchesOf | src/brazilian_soccer_mcp/queries.py:137-235 | the team's matches under the filters, cut to the limit, with wins, losses and draws counted, goals for and against summed, their difference and `3*wins + draws` points |
| MatchQueries.HomeOnlyWins | src/brazilian_soccer_mcp/queries.py:165-170 | with `home_only` set, `away_only` is ignored |
| MatchQueries.FalsyArgumentsIgnored | src/brazilian_soccer_mcp/queries.py:171-178 | season 0 and competition `""` filter nothing, like absent arguments |
| MatchQueries.FindMatchesByTeam | src/brazilian_soccer_mcp/queries.py:137-235 | the loop's record equals the record of the normalized name; counters add up; points are `3*wins + draws`; a home-only query returns only home matches |
| MatchQueries.FindMatchesByDateRange | src/brazilian_soccer_mcp/queries.py:237-286 | at most `limit` matches, each dated between the bounds by string order and in the competition when one is given; when fewer come back, they are all such matches |
| MatchQueries.EndDateExcluded | src/brazilian_soccer_mcp/queries.py:262-266 | a datetime that extends the end date string fails the upper bound |
| MatchQueries.StoredMatchOnEndDateExcluded | src/brazilian_soccer_mcp/queries.py:262-266 | a stored match played on the end date is never returned, because its ISO datetime extends the date |
| TeamQueries.GetTeamStatistics | src/brazilian_soccer_mcp/queries.py:292-358 | the overall, home and away records are the team's records from the three 1000-limited queries; goal difference and points follow from the overall record |
| TeamQueries.OverallIsHomePlusAway | src/brazilian_soccer_mcp/queries.py:310-320 | when no match has the team on both sides and the 1000 cap does not cut, the overall record is the home record plus the away record, counter by counter |
| TeamQueries.RowsOf | src/brazilian_soccer_mcp/queries.py:360-367 | one `{name, state}` row per Team node |
| TeamQueries.ByNameRanks | src/brazilian_soccer_mcp/queries.py:365 | `ORDER BY t.name` is a total preorder |
| TeamQueries.GetAllTeams | src/brazilian_soccer_mcp/queries.py:360-367 | every Team node's row exactly once, in ascending name order |
| PlayerQueries.FindPlayers | src/brazilian_soccer_mcp/queries.py:373-451 | at most `limit` players, each in the graph and passing every given filter; when fewer come back, they are all such players |
| PlayerQueries.ByRatingOrders | src/brazilian_soccer_mcp/queries.py:432 | `ORDER BY p.overall DESC`, with a null rating first, is a total preorder |
| PlayerQueries.FindPlayersByRating | src/brazilian_soccer_mcp/queries.py:429-434 | the players come by rating, highest first, and no wanted player that the limit left out is rated above one returned |
| PlayerQueries.NoFilterReturnsAll | src/brazilian_soccer_mcp/queries.py:401-427 | with no filter given, the first `limit` players in rating order come back |
| PlayerQueries.ClubSpellingFindsNormalizedClub | src/brazilian_soccer_mcp/queries.py:409-413 | searching by a raw club spelling finds a player whose stored club is its normalized form |
| PlayerQueries.RatingBounds | src/brazilian_soccer_mcp/queries.py:419-425 | a rating bound of 0 is ignored; a player without a rating fails any given bound |
| PlayerQueries.Wanted | src/brazilian_soccer_mcp/queries.py:401-427 | the WHERE clause of `find_players`: one condition per truthy argument, case-insensitive containment on name and nationality, normalized-club equality or raw containment on the club, containment on the position, and the rating bounds; a null property fails its condition |
| PlayerQueries.TopWanted | src/brazilian_soccer_mcp/queries.py:470-479 | the WHERE clause of `get_top_players_by_rating`: a rated player, with case-insensitive containment on nationality and on club, the club not normalized |
| PlayerQueries.GetTopPlayersByRating | src/brazilian_soccer_mcp/queries.py:453-501 | at most `limit` rated players passing the nationality and club filters; when fewer come back, they are all such players |
| PlayerQueries.TopPlayersByRating | src/brazilian_soccer_mcp/queries.py:484-489 | the top-rated players: ratings never increase down the list, and no wanted player that the limit left out is rated above one returned |
| CompetitionQueries.LineFacts | src/brazilian_soccer_mcp/queries.py:546-582 | in a team's table line, wins, draws and losses add up to matches, and points are `3*wins + draws` |
| CompetitionQueries.LineOf | src/brazilian_soccer_mcp/queries.py:546-582 | a team's table line, defined match by match: for each side it plays, one match, its goals for and against, and a win with 3 points, a draw with 1 or a loss |
| CompetitionQueries.TeamsOf | src/brazilian_soccer_mcp/queries.py:546-557 | the teams of the dict, each once, are exactly those appearing in a match |
| CompetitionQueries.AbsentLine | src/brazilian_soccer_mcp/queries.py:546-557 | a team in no match has the zero line |
| CompetitionQueries.RanksAboveOrders | src/brazilian_soccer_mcp/queries.py:585-589 | the key `(points, goal difference, goals for)` descending is a total preorder |
| CompetitionQueries.EnterTeams | src/brazilian_soccer_mcp/queries.py:546-557 | both teams enter the dict with zero counters if new; existing entries are kept |
| CompetitionQueries.CreditGoals | src/brazilian_soccer_mcp/queries.py:560-567 | each side gains one match and its goals for and against |
| CompetitionQueries.CreditResult | src/brazilian_soccer_mcp/queries.py:570-582 | the winner gains a win and 3 points, both sides a draw and 1 point when level, the loser a loss |
| CompetitionQueries.Credit | src/brazilian_soccer_mcp/queries.py:539-582 | one loop iteration adds the match's share to each line |
| CompetitionQueries.Tabulate | src/brazilian_soccer_mcp/queries.py:539-582 | after the loop, the dict holds exactly the teams of the matches in order of first appearance, each with its line over all the matches |
| CompetitionQueries.Number | src/brazilian_soccer_mcp/queries.py:592-594 | `enumerate(..., 1)` gives positions 1, 2, … and each row's goal difference |
| CompetitionQueries.GetSeasonStandings | src/brazilian_soccer_mcp/queries.py:507-601 | the method computes the season's standings function |
| CompetitionQueries.StandingsOf | src/brazilian_soccer_mcp/queries.py:507-601 | the season's matches of the competition, one line per team, sorted by points, goal difference and goals for, all descending, and numbered from 1 |
| CompetitionQueries.TableValues | src/brazilian_soccer_mcp/queries.py:585-586 | the values of the standings dict are the season's lines, one per team, in the order the teams first appear |
| CompetitionQueries.StandingsRows | src/brazilian_soccer_mcp/queries.py:507-601 | one row per team of the season's matches. Positions run 1, 2, …. Each row is its team's line over those matches. A row ranks above every later row |
| CompetitionQueries.StandingsTeams | src/brazilian_soccer_mcp/queries.py:546-594 | teams are distinct, and every team of the season has a row |
| CompetitionQueries.StandingsArithmetic | src/brazilian_soccer_mcp/queries.py:570-582 | each row's results add up to its matches; its points are 3 per win plus 1 per draw |
| CompetitionQueries.TableTotals | src/brazilian_soccer_mcp/queries.py:560-567 | over all teams, matches played sum to twice the matches, and goals for and goals against each sum to the goals scored |
| CompetitionQueries.StandingsTotals | src/brazilian_soccer_mcp/queries.py:507-601 | the standings' matches sum to twice the season's matches; goals for and goals against each sum to its goals |
| CompetitionQueries.SeasonsOf | src/brazilian_soccer_mcp/queries.py:624-630 | `DISTINCT m.season ... ORDER BY m.season`: strictly increasing, exactly the competition's seasons |
| CompetitionQueries.SeasonLeader | src/brazilian_soccer_mcp/queries.py:640-649 | the first row of that season's standings, if any |
| CompetitionQueries.CollectFacts | src/brazilian_soccer_mcp/queries.py:632-649 | the loop keeps one entry per season that has a pick, in increasing season order, each its season's pick |
| CompetitionQueries.GetCompetitionWinners | src/brazilian_soccer_mcp/queries.py:603-655 | the method computes the winners function over the graph's matches |
| CompetitionQueries.WinnersOf | src/brazilian_soccer_mcp/queries.py:603-655 | for each season of the competition, increasing and within the truthy year bounds, the first row of its standings |
| CompetitionQueries.SeasonWinner | src/brazilian_soccer_mcp/queries.py:634-649 | a season outside the truthy year bounds gives nothing; another gives the first row of its standings, when there is one |
| CompetitionQueries.SeasonHasStandings | src/brazilian_soccer_mcp/queries.py:646-649 | a season with matches has non-empty standings, so the `if standings` test always passes for it |
| CompetitionQueries.LeaderRanksFirst | src/brazilian_soccer_mcp/queries.py:646-649 | the first row ranks above every row and has at least as many points |
| CompetitionQueries.WinnersSeasons | src/brazilian_soccer_mcp/queries.py:603-655 | one winner for every season of the competition within the years, and none outside; seasons strictly increase; `total_seasons` counts them |
| CompetitionQueries.WinnersLead | src/brazilian_soccer_mcp/queries.py:640-649 | each winner is its season's first standings row, with at least as many points as any team that season |
| Analytics.ByMarginOrders | src/brazilian_soccer_mcp/queries.py:697 | `ORDER BY goal_diff DESC, total_goals DESC` is a total preorder |
| Analytics.FormatWins | src/brazilian_soccer_mcp/queries.py:702-720 | the loop builds one row per returned match, in order |
| Analytics.FormatWin | src/brazilian_soccer_mcp/queries.py:705-721 | one returned match as a row: winner and loser by goals, the score written larger count first |
| Analytics.GetBiggestWins | src/brazilian_soccer_mcp/queries.py:661-725 | the method computes the biggest-wins function over the graph's matches |
| Analytics.BiggestWinsOf | src/brazilian_soccer_mcp/queries.py:661-725 | the decided matches selected, sorted by margin and then total goals, both descending, cut to the limit, each as winner, loser, score and margin |
| Analytics.BiggestWinsRows | src/brazilian_soccer_mcp/queries.py:661-725 | at most `limit` rows, `total` counting them. Each row comes from a match in the graph that passes the filters and has a winner. Winner and loser are its teams, the winner scoring `goal_difference` more. The score is the winner's goals, `-`, the loser's goals. Date, competition and season are the match's |
| Analytics.BiggestWinsOrdered | src/brazilian_soccer_mcp/queries.py:697 | rows come by goal difference descending, ties by total goals descending |
| Analytics.BiggestWinsTop | src/brazilian_soccer_mcp/queries.py:692-698 | no win left out has a larger margin than a row kept; when fewer than `limit` rows come back, every win is among them |
| Analytics.ThreeNilExample | src/brazilian_soccer_mcp/queries.py:706-718 | a 3-0 home win reads winner home, loser away, score `3-0`, goal difference 3 |
| Analytics.GetLeagueStatistics | src/brazilian_soccer_mcp/queries.py:728-784 | fails exactly when no match is in the competition and season; otherwise echoes them |
| Analytics.LeagueStatisticsCounts | src/brazilian_soccer_mcp/queries.py:749-784 | the total is the number of matches selected and is positive; home wins, away wins and draws count their kinds among them and add up to the total |
| Analytics.LeagueStatisticsMatchStandings | src/brazilian_soccer_mcp/queries.py:728-784 | for a given season, the season's standings play twice the league's matches and score its total goals |
| Analytics.Keys | src/brazilian_soccer_mcp/queries.py:836-845 | the grouping keys are distinct and are exactly the names grouped |
| Analytics.NamesAppear | src/brazilian_soccer_mcp/queries.py:836-845 | the teams grouped are exactly those in a selected match |
| Analytics.EntryGoals | src/brazilian_soccer_mcp/queries.py:836-845 | a team's `sum(goals)` over home and away entries is the goals it scored |
| Analytics.TotalsAreGoalsFor | src/brazilian_soccer_mcp/queries.py:836-845 | every group is a team of the selection with its goals for |
| Analytics.TeamTotals | src/brazilian_soccer_mcp/queries.py:836-845 | one `{team, total_goals}` row per distinct team, its goals summed over its home and away entries |
| Analytics.TotalsDistinct | src/brazilian_soccer_mcp/queries.py:836-845 | no team is grouped twice |
| Analytics.TopScorersTotal | src/brazilian_soccer_mcp/queries.py:836-845 | the groups' goals add up to all the goals scored |
| Analytics.GetTopScoringTeams | src/brazilian_soccer_mcp/queries.py:786-855 | echoes competition and season, and returns at most `limit` teams |
| Analytics.TopScorersRows | src/brazilian_soccer_mcp/queries.py:786-855 | each row is a distinct team of the selected matches with the goals it scored; goals do not increase down the list |
| Analytics.TopScorersTop | src/brazilian_soccer_mcp/queries.py:843-844 | no team left out scored more than a team kept; when fewer than `limit` come back, every team is there and their goals add up to all goals scored |
| Selection.Select | src/brazilian_soccer_mcp/queries.py:77-90 | `WHERE p ... LIMIT n`: at most `n` nodes, each satisfying `p`; when fewer come back, every such node is among them |
| Selection.SelectSorted | src/brazilian_soccer_mcp/queries.py:429-434 | `WHERE p ... ORDER BY ... LIMIT n` over a key of the nodes: the same soundness and completeness below the limit |
| Selection.SelectSortedOrdered | src/brazilian_soccer_mcp/queries.py:484-489 | over a total preorder the nodes come in order, and every node satisfying `p` that the limit left out may come after each one returned |
| Selection.CountPartition | src/brazilian_soccer_mcp/queries.py:101-123 | counts of three exclusive, exhaustive conditions add up to the length |
| Selection.FilterSplit | src/brazilian_soccer_mcp/queries.py:310-320 | a filter that is the disjoint union of two splits its length, counts and sums |
| Selection.SumSort | src/brazilian_soccer_mcp/queries.py:585-589 | sorting does not change a sum |
| Selection.TopOfSorted | src/brazilian_soccer_mcp/queries.py:697-698 | `ORDER BY ... LIMIT n` over a total preorder: the rows kept are in order, and each left out may follow every row kept |
| Sorting.Sort | src/brazilian_soccer_mcp/queries.py:585-589 | the sort is a permutation of its input |
| Sorting.SortSorted | src/brazilian_soccer_mcp/queries.py:585-589 | over a total preorder the sort's result is sorted and a permutation of its input |
| Sorting.PermutationDistinct | src/brazilian_soccer_mcp/queries.py:585-589 | a permutation of distinct elements is distinct |

## Left out

- Neo4j, the session and `execute` are not modelled. The graph is a value: the sequences of node property records a read sees. Relationships, the Season nodes and the HOME_TEAM/AWAY_TEAM/IN_COMPETITION/IN_SEASON edges that `_create_match_node` writes are not modelled. Only the Match node's properties are.
- The order of the match queries' `ORDER BY m.datetime DESC` and `ORDER BY m.datetime` is not modelled. The node sequence given is taken as already in that order, and where nulls and ties land is left open.
- PlayerQueries.FindPlayers and PlayerQueries.GetTopPlayersByRating: `ORDER BY p.overall DESC` is a stable sort of the selected players, so players of equal rating keep the store's order here; the store promises no order among them.
- Every query's `limit` is a `nat`. A negative limit makes the store reject the query with an error; the model has no such call and no such error.
- A datetime is what `dateutil` returns for the formats the loaders read: naive or with a UTC offset in whole minutes, with or without microseconds. A UTC offset with seconds, which Python allows but `dateutil`'s parser does not produce, is not modelled, and the day is not checked against the month's length.
- Reading CSV files with pandas, `_parse_date` and the file-exists checks are not modelled. A file is `None` (missing) or a sequence of rows whose cells are already classified as number, missing or unparsable, with the date already parsed.
- unidecode's tables are not modelled: they are the transliteration parameter.
- `toLower` maps only ASCII capitals. The model's lower-casing matches the store only for ASCII text.
- Floating point is not modelled: the overall, home and away win rates of `get_team_statistics` (queries.py:335-356) and the average and rates of `get_league_statistics` (queries.py:777-783). The integer fields beside them are modelled.
- Analytics.GetLeagueStatistics: with no selected match, the store returns one row whose average is null, and `round(None, 2)` raises. The model returns that as an error. The `No data found` branch (queries.py:766-767) cannot be reached and is not modelled.
- Analytics.GetTopScoringTeams: the first query string (queries.py:817-833) is built and never run, so it is not modelled. The second query's grouped rows come out in a store-chosen order. The model takes first appearance over the home entries and then the away entries, then sorts stably. Only which rows come first, not their order among equal totals, is stated.
- Sorting.Sort: the stable insertion sort also models Python's stable `sorted(reverse=True)`. The lemmas state sortedness and permutation; stability itself is not stated.
- Ingestion.DataLoader.GetOrCreateTeam: the cache holds team values, not shared `Team` objects. Object identity and aliasing between the cache and the teams it holds are not modelled. The values are the fields a `Team` would hold, including the double normalization that `Team.__post_init__` applies to an already normalized name.
- Ingestion.BuildMatch: Python's `int()` truncation of float cells is taken as done: a numeric cell holds an integer.
- Logging, the MCP server (`server.py`), `setup_schema` and `clear_database` are not part of the core and are not modelled.
