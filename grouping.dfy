/** The exporter's first loop: each result record becomes a brawler
    statistic appended to the list of its (mode, map, bucket). The
    three-level `defaultdict` is one map keyed by the triple; a key is
    present exactly when the nested dictionaries would hold a list for it. */
module Grouping {
  import opened Options
  import Rates
  import Aggregation

  datatype GroupKey = GroupKey(gameMode: Option<string>, gameMap: Option<string>, bucket: Option<int>)

  /** `{'brawler': ..., 'games_played': ..., 'win_rate': ...}`. */
  datatype Stat = Stat(brawler: Option<string>, gamesPlayed: nat, winRate: Rates.Rate)

  function KeyOf(r: Aggregation.Record): GroupKey {
    GroupKey(r.gameMode, r.gameMap, r.bucket)
  }

  /** The entry appended for one record; its win rate is its victories
      over its games, or 0 for a record without games. */
  function StatOf(r: Aggregation.Record): Stat {
    Stat(r.brawler, r.gamesPlayed, Rates.WinRate(r.victories, r.gamesPlayed))
  }

  /** `data` after the loop has run over `records`. */
  function Grouped(records: seq<Aggregation.Record>): map<GroupKey, seq<Stat>> {
    if records == [] then map[]
    else
      var data := Grouped(records[..|records| - 1]);
      var r := records[|records| - 1];
      var k := KeyOf(r);
      data[k := (if k in data then data[k] else []) + [StatOf(r)]]
  }

  /** Reference definition: the statistics of the records of group `k`,
      in record order. */
  function Select(records: seq<Aggregation.Record>, k: GroupKey): seq<Stat> {
    if records == [] then []
    else
      var r := records[|records| - 1];
      Select(records[..|records| - 1], k) + (if KeyOf(r) == k then [StatOf(r)] else [])
  }

  /** The loop gives each group exactly the statistics of its own records,
      in record order, and no list for a group without records. */
  lemma {:induction false} GroupedIsSelect(records: seq<Aggregation.Record>, k: GroupKey)
    ensures k in Grouped(records) <==> Select(records, k) != []
    ensures k in Grouped(records) ==> Grouped(records)[k] == Select(records, k)
  {
    if records != [] {
      GroupedIsSelect(records[..|records| - 1], k);
    }
  }

  /** A group's list has one statistic per record of the group. */
  lemma {:induction false} SelectCounts(records: seq<Aggregation.Record>, k: GroupKey)
    ensures |Select(records, k)| == |set i | 0 <= i < |records| && KeyOf(records[i]) == k|
  {
    var idx := set i | 0 <= i < |records| && KeyOf(records[i]) == k;
    if records != [] {
      var n := |records| - 1;
      var init := records[..n];
      var idx0 := set i | 0 <= i < |init| && KeyOf(init[i]) == k;
      SelectCounts(init, k);
      if KeyOf(records[n]) == k {
        assert idx == idx0 + {n};
      } else {
        assert idx == idx0;
      }
    }
  }

  /** A record lands in the list of its own group. */
  lemma RecordInOwnGroup(records: seq<Aggregation.Record>, i: nat)
    requires i < |records|
    ensures KeyOf(records[i]) in Grouped(records)
    ensures StatOf(records[i]) in Grouped(records)[KeyOf(records[i])]
  {
    InSelect(records, i);
    GroupedIsSelect(records, KeyOf(records[i]));
  }

  lemma {:induction false} InSelect(records: seq<Aggregation.Record>, i: nat)
    requires i < |records|
    ensures StatOf(records[i]) in Select(records, KeyOf(records[i]))
  {
    var n := |records| - 1;
    if i < n {
      InSelect(records[..n], i);
    }
  }

  /** The grouping loop of `pull_analytics.py` lines 76-91. */
  method Group(records: seq<Aggregation.Record>) returns (data: map<GroupKey, seq<Stat>>)
    ensures data == Grouped(records)
  {
    data := map[];
    var i := 0;
    while i < |records|
      invariant 0 <= i <= |records|
      invariant data == Grouped(records[..i])
    {
      var record := records[i];
      var key := GroupKey(record.gameMode, record.gameMap, record.bucket);
      var winRate := Rates.WinRate(record.victories, record.gamesPlayed);
      var entry := Stat(record.brawler, record.gamesPlayed, winRate);
      var list := if key in data then data[key] else [];
      data := data[key := list + [entry]];
      assert records[..i + 1][..i] == records[..i];
      i := i + 1;
    }
    assert records[..i] == records;
  }
}
