/** The aggregation query of `pull_analytics.py`: every ranked row of the
    `battles` table is placed in each trophy bucket its rank reaches, and
    games and victories are counted per (mode, map, bucket, brawler).
    A column that can hold SQL `NULL` is an `Option`; `NULL` fails every
    comparison in a `WHERE`, and `GROUP BY` puts all `NULL`s of a column
    in one group, which is what `==` on `Option` does. */
module Aggregation {
  import opened Options

  /** `TROPHY_BUCKETS`: 700+, 800+, ..., 1200+. */
  const TrophyBuckets: seq<int> := [700, 800, 900, 1000, 1100, 1200]

  /** The columns of a `battles` row the query reads. */
  datatype Entry = Entry(
    gameMode: Option<string>,
    gameMap: Option<string>,
    gameType: Option<string>,
    brawler: Option<string>,
    result: Option<string>,
    rank: Option<int>)

  /** A group of the outer `GROUP BY game_mode, game_map, bucket, brawler`. */
  datatype Key = Key(gameMode: Option<string>, gameMap: Option<string>, bucket: int, brawler: Option<string>)

  /** The CTE's filter: `game_type = 'ranked' AND rank >= ANY(array[...])`. */
  predicate Ranked(e: Entry) {
    e.gameType == Some("ranked") && e.rank.Some? &&
    exists i | 0 <= i < |TrophyBuckets| :: e.rank.value >= TrophyBuckets[i]
  }

  /** The CTE row `(e, b)` produced by `unnest` survives the outer
      `WHERE rank >= bucket`. */
  predicate InBucket(e: Entry, b: int) {
    Ranked(e) && b in TrophyBuckets && e.rank.value >= b
  }

  /** A row counts toward bucket `b` exactly when it is ranked and its
      rank reaches `b`; the `ANY` test adds nothing once `b` is a bucket. */
  lemma InBucketIff(e: Entry, b: int)
    requires b in TrophyBuckets
    ensures InBucket(e, b) <==> (e.gameType == Some("ranked") && e.rank.Some? && e.rank.value >= b)
  {
    if e.gameType == Some("ranked") && e.rank.Some? && e.rank.value >= b {
      var i :| 0 <= i < |TrophyBuckets| && TrophyBuckets[i] == b;
      assert e.rank.value >= TrophyBuckets[i];
    }
  }

  /** `rank >= ANY(array[700, ...])` is `rank >= 700`. */
  lemma RankedIff(e: Entry)
    ensures Ranked(e) <==> (e.gameType == Some("ranked") && e.rank.Some? && e.rank.value >= 700)
  {
    if e.gameType == Some("ranked") && e.rank.Some? && e.rank.value >= 700 {
      assert e.rank.value >= TrophyBuckets[0];
    }
    if Ranked(e) {
      var i :| 0 <= i < |TrophyBuckets| && e.rank.value >= TrophyBuckets[i];
      assert i == 0 || i == 1 || i == 2 || i == 3 || i == 4 || i == 5;
    }
  }

  predicate InGroup(e: Entry, k: Key) {
    e.gameMode == k.gameMode && e.gameMap == k.gameMap && e.brawler == k.brawler && InBucket(e, k.bucket)
  }

  /** `COUNT(*)` of a group: the number of table rows in it. */
  function GamesPlayed(table: seq<Entry>, k: Key): nat {
    if table == [] then 0
    else (if InGroup(table[0], k) then 1 else 0) + GamesPlayed(table[1..], k)
  }

  /** `SUM(CASE WHEN result = 'victory' THEN 1 ELSE 0 END)` of a group. */
  function Victories(table: seq<Entry>, k: Key): nat {
    if table == [] then 0
    else (if InGroup(table[0], k) && table[0].result == Some("victory") then 1 else 0) + Victories(table[1..], k)
  }

  /** A group never has more victories than games. */
  lemma {:induction false} VictoriesAtMostGames(table: seq<Entry>, k: Key)
    ensures Victories(table, k) <= GamesPlayed(table, k)
  {
    if table != [] {
      VictoriesAtMostGames(table[1..], k);
    }
  }

  /** For one mode, map and brawler, a higher bucket has no more games
      and no more victories than a lower one. */
  lemma {:induction false} HigherBucketCountsLess(table: seq<Entry>, k: Key, higher: int)
    requires k.bucket in TrophyBuckets && higher in TrophyBuckets && k.bucket <= higher
    ensures GamesPlayed(table, k.(bucket := higher)) <= GamesPlayed(table, k)
    ensures Victories(table, k.(bucket := higher)) <= Victories(table, k)
  {
    if table != [] {
      HigherBucketCountsLess(table[1..], k, higher);
    }
  }

  /** The groups one row contributes to: one per bucket its rank reaches. */
  function EntryGroups(e: Entry): set<Key> {
    set i | 0 <= i < |TrophyBuckets| && InBucket(e, TrophyBuckets[i]) :: Key(e.gameMode, e.gameMap, TrophyBuckets[i], e.brawler)
  }

  lemma EntryGroupsIff(e: Entry, k: Key)
    ensures k in EntryGroups(e) <==> InGroup(e, k)
  {
    if InGroup(e, k) {
      var i :| 0 <= i < |TrophyBuckets| && TrophyBuckets[i] == k.bucket;
      assert k == Key(e.gameMode, e.gameMap, TrophyBuckets[i], e.brawler);
    }
  }

  /** The groups the query returns: those some row falls into. */
  function Groups(table: seq<Entry>): set<Key> {
    if table == [] then {} else EntryGroups(table[0]) + Groups(table[1..])
  }

  /** A group is returned exactly when it has at least one game. */
  lemma {:induction false} GroupsHaveGames(table: seq<Entry>, k: Key)
    ensures k in Groups(table) <==> GamesPlayed(table, k) > 0
  {
    if table != [] {
      EntryGroupsIff(table[0], k);
      GroupsHaveGames(table[1..], k);
    }
  }

  datatype Counts = Counts(gamesPlayed: nat, victories: nat)

  /** The query's result as a table from group to its two counts. */
  function Aggregate(table: seq<Entry>): map<Key, Counts> {
    map k | k in Groups(table) :: Counts(GamesPlayed(table, k), Victories(table, k))
  }

  /** Each returned group has at least one game and no more victories
      than games; a group with no qualifying row is not returned. */
  lemma AggregateCounts(table: seq<Entry>, k: Key)
    ensures k in Aggregate(table) <==> GamesPlayed(table, k) > 0
    ensures k in Aggregate(table) ==>
      0 < Aggregate(table)[k].gamesPlayed && Aggregate(table)[k].victories <= Aggregate(table)[k].gamesPlayed
  {
    GroupsHaveGames(table, k);
    VictoriesAtMostGames(table, k);
  }

  /** A record of the result set. The exporter reads each column through
      `record[...]`, which may hand it `None`. */
  datatype Record = Record(
    gameMode: Option<string>,
    gameMap: Option<string>,
    bucket: Option<int>,
    brawler: Option<string>,
    gamesPlayed: nat,
    victories: nat)

  function RecordKey(r: Record): Key
    requires r.bucket.Some?
  {
    Key(r.gameMode, r.gameMap, r.bucket.value, r.brawler)
  }

  /** `records` is the result of the query on `table`, in some order:
      each group once, with its counts. */
  predicate IsQueryResult(table: seq<Entry>, records: seq<Record>) {
    var agg := Aggregate(table);
    (forall i | 0 <= i < |records| ::
       records[i].bucket.Some? && RecordKey(records[i]) in agg &&
       agg[RecordKey(records[i])] == Counts(records[i].gamesPlayed, records[i].victories)) &&
    (forall i, j | 0 <= i < j < |records| :: RecordKey(records[i]) != RecordKey(records[j])) &&
    (forall k | k in agg :: exists i | 0 <= i < |records| :: RecordKey(records[i]) == k)
  }

  /** Every record of the result set has a bucket, at least one game and
      at most as many victories as games, so its win rate is a true
      fraction of its games. */
  lemma QueryRecordCounts(table: seq<Entry>, records: seq<Record>, i: nat)
    requires IsQueryResult(table, records) && i < |records|
    ensures records[i].bucket.Some? && 0 < records[i].gamesPlayed && records[i].victories <= records[i].gamesPlayed
  {
    AggregateCounts(table, RecordKey(records[i]));
  }
}
