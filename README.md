# Brawl Stars ranked-battle statistics: a verified model

The system crawls Brawl Stars battle logs into a PostgreSQL `battles`
table. It then turns that table into per-map JSON files that rank brawlers
by win rate, for each trophy bucket. This project models the two steps that
carry the logic, and proves what they promise.

**Collection (`process_player`).** Module `Collection` models one player's
battle log being processed:
- Battles in the excluded modes, friendly battles and battles before
  1 November 2024 are dropped.
- Every battle gets the canonical id `battle_time + min(tags)`.
- Battles already seen are skipped.
- The logged player's team is put first, and each team is encoded as four
  lists sorted by brawler name.
- One row is emitted per participant, seen from that participant's side.
  The result is flipped, and team and opponents are swapped, for the
  second team.
- Every participant not yet processed is recorded as a new player.

The crawler's shared state is the class `Collector`. Its
`ProcessPlayer` updates the two sets in place, and is proved equal to the
functional specification `RunLog`.

**Export (`pull_analytics.py`).** This step is split over four modules:
- `Aggregation` models the SQL query: the bucketing CTE, the `rank >=
  bucket` filter and the group counts. SQL `NULL` is `None`.
- `Grouping` models the loop that groups result records by
  (mode, map, bucket).
- `Ranking` models the in-place, stable, descending sort by win rate, as
  an insertion sort on an array. It is proved equal to a functional sort
  that is shown to be a sorted, stable permutation.
- `Export` models the writing loop. It skips incomplete keys, builds
  the `data/<mode>/<map>/<bucket>-trophies.json` path with
  `posixpath.join` semantics, and logs one write per group.

`Strings` gives Python's string order and `str(int)`. `Rates` gives win
rates as exact fractions.

## Model

| member | source | states |
|---|---|---|
| Strings.LeTotal | data-collection/main.py:42 | Python's string order, used by `min` and `sorted`, is total |
| Strings.LeTransitive | data-collection/main.py:57 | the string order is transitive |
| Strings.LeAntisymmetric | data-collection/main.py:42 | two strings each at most the other are equal |
| Strings.IntToString | data-collection/scripts/pull_analytics.py:112 | `str(bucket)` is non-empty, never starts with `/`, and starts with `-` exactly for negative numbers |
| Strings.NatToStringRoundTrip | data-collection/scripts/pull_analytics.py:112 | reading the decimal digits back gives the number |
| Strings.IntToStringInjective | data-collection/scripts/pull_analytics.py:112 | distinct buckets have distinct decimal names |
| Collection.MinTag | data-collection/main.py:42 | `min` of the tags is one of the tags and at most every tag |
| Collection.BattleIdSameParticipants | data-collection/main.py:42-43 | the battle id depends only on the battle time and the set of participants, so the same battle read from any participant's log gets the same id |
| Collection.BattleIdSymmetric | data-collection/main.py:42-43 | swapping the two teams does not change the id |
| Collection.Screen | data-collection/main.py:21-43 | a battle is dropped exactly for an excluded mode, a friendly game or a time before the cutoff. It raises exactly when it is not dropped and its time does not parse, it has fewer than two teams or it has no participant. Otherwise it is admitted under its canonical id |
| Collection.Orient | data-collection/main.py:49-50 | the teams are kept or swapped. They are kept when the player is in the first team. Whenever the player took part, the player's team comes first |
| Collection.SortByNameSorted | data-collection/main.py:57 | `sorted` by brawler name is a permutation of the team, ordered by name |
| Collection.SortByNameStable | data-collection/main.py:57 | players with the same brawler name keep their order (`sorted` is stable) |
| Collection.ExtractTeam | data-collection/main.py:55-62 | the four lists have one entry per player, and the id list holds exactly the team's tags |
| Collection.ExtractTeamAligned | data-collection/main.py:55-62 | entry `i` of all four lists describes the same player, the `i`-th by name, and the brawler list is in name order |
| Collection.FlipResult | data-collection/main.py:78-81 | victory and defeat are swapped; any other result is kept |
| Collection.Emit | data-collection/main.py:67-76 | one team's pass appends one row per player, in team order, and leaves the seen ids alone |
| Collection.EmitProcessed | data-collection/main.py:74-76 | after one team's pass, the processed set is the old set plus the team's tags |
| Collection.EmitNewPlayers | data-collection/main.py:74-76 | one team's pass appends exactly the team's tags that were not processed, in first-seen order |
| Collection.DiscoveredExactlyNew | data-collection/main.py:74-76 | the new players of a pass are exactly the unprocessed tags, with no repeats |
| Collection.DiscoveredInEncounterOrder | data-collection/main.py:67-97 | new players are listed in the order they were first met |
| Collection.Accept | data-collection/main.py:45-47 | accepting a battle adds its id to the seen set |
| Collection.AcceptRows | data-collection/main.py:64-97 | an accepted battle appends the first team's rows and then the second team's, flipped: one per participant, with earlier rows untouched |
| Collection.AcceptRegisters | data-collection/main.py:67-97 | an accepted battle adds all its participants to the processed set, and lists exactly the unprocessed ones as new players |
| Collection.FirstSideRows | data-collection/main.py:64-76 | each first-team row carries the battle's result and id and that player's tag, brawler, power and trophies, and the player is listed in the row's own team |
| Collection.SecondSideRows | data-collection/main.py:83-97 | each second-team row carries the battle id and that player's tag, brawler, power and trophies, and the player is listed in the row's own team |
| Collection.SidesMirrored | data-collection/main.py:78-86 | each first-team row and each second-team row show the same battle from opposite sides: flipped result, team and opponents swapped |
| Collection.StepBattle | data-collection/main.py:20-97 | one battle raises exactly when screening raises. A dropped battle or a seen id changes nothing; a new id is accepted |
| Collection.StepBattleIdempotent | data-collection/main.py:45-47 | processing the same battle again changes nothing |
| Collection.StepGrows | data-collection/main.py:45-97 | one battle only grows the seen and processed sets and only appends rows, each new row belonging to a newly seen battle |
| Collection.RunLogAppend | data-collection/main.py:20-97 | processing a log in two halves is processing it at once, and a raise stops the rest |
| Collection.RunLogGrows | data-collection/main.py:20-97 | a whole log only grows the sets and appends rows, each new row belonging to a battle first seen in this call |
| Collection.DuplicateBattleIgnored | data-collection/main.py:45-46 | a battle whose id is already seen adds nothing |
| Collection.StepNewPlayers | data-collection/main.py:74-97 | one battle keeps `new_players` an exact, repeat-free list of the players added to the processed set |
| Collection.RunLogNewPlayers | data-collection/main.py:17-97 | the returned `new_players` lists, without repeats, exactly the players this call added to the processed set |
| Collection.Collector.EmitTeam | data-collection/main.py:67-76 | the per-player loop updates the processed set, rows and new players as `Emit` does |
| Collection.Collector.ProcessPlayer | data-collection/main.py:14-102 | the two sets end as the log's run leaves them, even when a battle raises. The call returns the new players or raises. One batch is inserted exactly when the run completes with some rows |
| Rates.WinRate | data-collection/scripts/pull_analytics.py:85 | the rate is victories over games, or 0 when there are no games |
| Rates.WinRateAtMostOne | data-collection/scripts/pull_analytics.py:85 | a rate never exceeds 1 when victories do not exceed games |
| Rates.AtMostTransitive | data-collection/scripts/pull_analytics.py:105 | the order the sort uses is transitive |
| Rates.BelowNotTie | data-collection/scripts/pull_analytics.py:105 | a rate strictly below another does not tie with anything the other ties with |
| Aggregation.RankedIff | data-collection/scripts/pull_analytics.py:49-51 | `rank >= ANY(buckets)` holds exactly for a ranked row with rank at least 700 (a NULL rank fails) |
| Aggregation.InBucketIff | data-collection/scripts/pull_analytics.py:47-61 | a row counts toward bucket `b` exactly when it is ranked and its rank reaches `b` |
| Aggregation.EntryGroupsIff | data-collection/scripts/pull_analytics.py:47-62 | a row falls in a group exactly when mode, map and brawler match and its rank reaches the group's bucket |
| Aggregation.VictoriesAtMostGames | data-collection/scripts/pull_analytics.py:58-59 | a group never has more victories than games |
| Aggregation.HigherBucketCountsLess | data-collection/scripts/pull_analytics.py:47-61 | a higher bucket has no more games and no more victories than a lower one |
| Aggregation.GroupsHaveGames | data-collection/scripts/pull_analytics.py:53-62 | a group is returned exactly when it has at least one game |
| Aggregation.AggregateCounts | data-collection/scripts/pull_analytics.py:53-62 | every returned group has at least one game and no more victories than games |
| Aggregation.QueryRecordCounts | data-collection/scripts/pull_analytics.py:53-62 | every result record has a bucket, at least one game and a win rate that is a true fraction |
| Grouping.GroupedIsSelect | data-collection/scripts/pull_analytics.py:76-91 | each group's list is exactly the stats of its own records, in record order, and a group without records has no list |
| Grouping.SelectCounts | data-collection/scripts/pull_analytics.py:78-91 | a group's list has one entry per record of that group |
| Grouping.InSelect | data-collection/scripts/pull_analytics.py:78-91 | a record's statistic is among those of its own group |
| Grouping.RecordInOwnGroup | data-collection/scripts/pull_analytics.py:78-91 | every record lands in the list of its own (mode, map, bucket) |
| Grouping.Group | data-collection/scripts/pull_analytics.py:76-91 | the loop builds the grouped table of all records |
| Ranking.InsertDescPermutes | data-collection/scripts/pull_analytics.py:105 | one insertion adds exactly the inserted statistic |
| Ranking.SortDescPermutes | data-collection/scripts/pull_analytics.py:105 | sorting neither loses nor adds a statistic |
| Ranking.SortDescSorted | data-collection/scripts/pull_analytics.py:105 | the sorted list has non-increasing win rates |
| Ranking.SortDescStable | data-collection/scripts/pull_analytics.py:105 | statistics with equal win rate keep their original order (`reverse=True` stays stable) |
| Ranking.InsertAt | data-collection/scripts/pull_analytics.py:105 | one in-place insertion places the element into the sorted prefix and leaves the rest of the array alone |
| Ranking.SortByWinRate | data-collection/scripts/pull_analytics.py:105 | the in-place sort leaves the array equal to the stable descending sort of its old contents |
| Export.OutputPathShape | data-collection/scripts/pull_analytics.py:108-112 | for names without slashes at either end, the path is `data/<mode>/<map>/<bucket>-trophies.json` |
| Export.OutputPathInjective | data-collection/scripts/pull_analytics.py:108-112 | distinct groups with slash-free names never write to the same file |
| Export.SortGroup | data-collection/scripts/pull_analytics.py:105 | a group's list is returned sorted by the stable descending sort |
| Export.SkipGroup | data-collection/scripts/pull_analytics.py:94-102 | a group with a missing mode, map or bucket is skipped and the write log is unchanged |
| Export.WriteGroup | data-collection/scripts/pull_analytics.py:104-114 | writing a complete group adds its one write, to its path and with its sorted list |
| Export.ExportGroups | data-collection/scripts/pull_analytics.py:94-116 | exactly the groups with mode, map and bucket present are written, each once, to its own path, with its list sorted by win rate |

## Left out

- The Brawl Stars HTTP API (`get_player_battlelog`): the battle log is a parameter. brawl_stars_api.py is not part of this model.
- `Database.insert_battles` and the rest of database.py: a batch handed to the database is logged in `insertedBatches`. The SQL insert, its conflict handling and connection pooling are not modelled.
- The crawler's `main` loop: the player queue, sleeping, logging and the top-players seed. Only the state it shares with `process_player` is modelled.
- Concurrency: `process_player` runs in one asyncio task with no `await` between the set updates, so the model is sequential.
- `datetime.strptime`: the parsed time is an input next to the raw `battleTime`, and `None` stands for a parse error. Only the comparison with the cutoff is modelled.
- Missing keys in the battle-log JSON (`KeyError`): the model assumes every battle has the fields the code reads. Missing teams and an empty participant list are modelled as raises.
- `json.dumps` of the four team lists: they are kept as sequences.
- Collection.SecondSideRows: does not restate the second team's flipped result on its own; that fact is in Collection.SidesMirrored.
- Floating-point win rates: a rate is the exact fraction victories/games, so the sort compares exact values where Python compares rounded floats.
- Dictionary iteration order in the writing loop: the three-level `defaultdict` becomes one map keyed by (mode, map, bucket), and the order of the writes is left open.
- The order of the SQL result set: the query's result is any ordering of the groups.
- `os.makedirs`, `open`, `json.dump` and the printed messages: the writing loop returns a log of (group, path, sorted list) writes instead.
- Environment variable checks, the database connection and its error handling in `pull_analytics.py`.
- The early return on an empty result set: it writes nothing, which is what the model does for an empty input.
- The frontend and the maintenance scripts: they are not part of this model.
