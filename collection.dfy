/** The battle-log crawler's per-player step (`process_player` in
    data-collection/main.py): filter one player's battle log, give every
    battle a canonical id, skip battles already stored, and turn each new
    battle into one database row per participant, seen from that
    participant's side. */
module Collection {
  import opened Options
  import Strings

  // ---------------------------------------------------------------------
  // The battle log, as the Brawl Stars API returns it

  datatype Brawler = Brawler(name: string, power: int, trophies: int)

  /** One participant: `player["tag"]` and `player["brawler"]`. */
  datatype Player = Player(tag: string, brawler: Brawler)

  type Team = seq<Player>

  /** A UTC date and time as `datetime` holds it. */
  datatype Stamp = Stamp(year: int, month: int, day: int, hour: int, minute: int, second: int, micro: int)

  /** One battle-log item. `battleTime` is the raw text ("20241105T183012.000Z");
      `when` is what `strptime` makes of it, `None` when it raises. */
  datatype Battle = Battle(
    battleTime: string,
    when: Option<Stamp>,
    mode: string,
    kind: string,
    result: string,
    teams: seq<Team>,
    gameMap: Option<string>)

  // ---------------------------------------------------------------------
  // The rows written to the `battles` table

  /** The four JSON lists that describe one side of a battle. */
  datatype TeamLists = TeamLists(brawlers: seq<string>, powers: seq<int>, ranks: seq<int>, ids: seq<string>)

  /** The per-battle fields every row of a battle copies (the `data` dict). */
  datatype Shared = Shared(
    battleId: string,
    battleTime: string,
    gameMode: string,
    gameMap: Option<string>,
    gameType: string,
    result: string,
    team: TeamLists,
    opponents: TeamLists)

  /** One row: the battle from one participant's side. */
  datatype Row = Row(shared: Shared, playerId: string, brawler: string, power: int, rank: int)

  // ---------------------------------------------------------------------
  // Filtering

  const ExcludedModes: seq<string> := ["soloShowdown", "duoShowdown", "duels", "bossFight"]

  /** Battles before this instant are ignored. */
  const Cutoff: Stamp := Stamp(2024, 11, 1, 0, 0, 0, 0)

  function Fields(s: Stamp): seq<int> {
    [s.year, s.month, s.day, s.hour, s.minute, s.second, s.micro]
  }

  predicate LexLess(x: seq<int>, y: seq<int>)
    requires |x| == |y|
  {
    |x| > 0 && (x[0] < y[0] || (x[0] == y[0] && LexLess(x[1..], y[1..])))
  }

  /** `a < b` on datetimes: field by field, most significant first. */
  predicate Before(a: Stamp, b: Stamp) {
    LexLess(Fields(a), Fields(b))
  }

  // ---------------------------------------------------------------------
  // The canonical battle id

  function Tags(t: seq<Player>): (r: seq<string>)
    ensures |r| == |t| && forall i | 0 <= i < |t| :: r[i] == t[i].tag
  {
    seq(|t|, i requires 0 <= i < |t| => t[i].tag)
  }

  function Elems(s: seq<string>): set<string> {
    set x | x in s
  }

  /** Python's `min` over a non-empty list of strings. */
  function MinTag(tags: seq<string>): (m: string)
    requires |tags| > 0
    ensures m in tags
    ensures forall t | t in tags :: Strings.Le(m, t)
  {
    if |tags| == 1 then
      Strings.LeReflexive(tags[0]);
      tags[0]
    else
      var rest := MinTag(tags[1..]);
      assert forall t | t in tags :: t == tags[0] || t in tags[1..];
      if Strings.Le(tags[0], rest) then
        Strings.LeReflexive(tags[0]);
        forall t | t in tags[1..] ensures Strings.Le(tags[0], t) {
          Strings.LeTransitive(tags[0], rest, t);
        }
        tags[0]
      else
        Strings.LeTotal(tags[0], rest);
        rest
  }

  /** Two tag lists over the same set of tags have the same minimum. */
  lemma MinTagDependsOnlyOnTagSet(a: seq<string>, b: seq<string>)
    requires |a| > 0 && |b| > 0 && Elems(a) == Elems(b)
    ensures MinTag(a) == MinTag(b)
  {
    var ma, mb := MinTag(a), MinTag(b);
    assert ma in Elems(b) && mb in Elems(a);
    Strings.LeAntisymmetric(ma, mb);
  }

  /** `battle_time` followed by the smallest tag among all participants. */
  function BattleId(battleTime: string, team1: Team, team2: Team): string
    requires |team1| + |team2| > 0
  {
    battleTime + MinTag(Tags(team1) + Tags(team2))
  }

  /** The id depends on the battle time and the set of participants only:
      not on which team is listed first, nor on the order inside a team,
      hence not on whose battle log the battle was read from. */
  lemma BattleIdSameParticipants(battleTime: string, team1: Team, team2: Team, other1: Team, other2: Team)
    requires |team1| + |team2| > 0
    requires Elems(Tags(team1) + Tags(team2)) == Elems(Tags(other1) + Tags(other2))
    ensures |other1| + |other2| > 0
    ensures BattleId(battleTime, team1, team2) == BattleId(battleTime, other1, other2)
  {
    var tags, others := Tags(team1) + Tags(team2), Tags(other1) + Tags(other2);
    assert tags[0] in Elems(others);
    MinTagDependsOnlyOnTagSet(tags, others);
  }

  lemma BattleIdSymmetric(battleTime: string, team1: Team, team2: Team)
    requires |team1| + |team2| > 0
    ensures BattleId(battleTime, team1, team2) == BattleId(battleTime, team2, team1)
  {
    var a, b := Tags(team1) + Tags(team2), Tags(team2) + Tags(team1);
    assert Elems(a) == Elems(b) by {
      forall t ensures t in a <==> t in b {
        assert t in a <==> t in Tags(team1) || t in Tags(team2);
        assert t in b <==> t in Tags(team1) || t in Tags(team2);
      }
    }
    BattleIdSameParticipants(battleTime, team1, team2, team2, team1);
  }

  // ---------------------------------------------------------------------
  // Screening one battle

  datatype Screening = Drop | Crash | Admit(id: string)

  /** Every check `process_player` makes before the seen-battles test:
      excluded modes, friendly games and battles before the cutoff are
      dropped; an unparsable time, fewer than two teams or no participant
      at all raise. */
  function Screen(b: Battle): (r: Screening)
    ensures r == Drop <==>
      b.mode in ExcludedModes || b.kind == "friendly" || (b.when.Some? && Before(b.when.value, Cutoff))
    ensures r.Admit? ==> |b.teams| >= 2 && |b.teams[0]| + |b.teams[1]| > 0
    ensures r.Admit? ==> r.id == BattleId(b.battleTime, b.teams[0], b.teams[1])
    ensures r == Crash <==>
      (r != Drop && (b.when.None? || |b.teams| < 2 || |b.teams[0]| + |b.teams[1]| == 0))
  {
    if b.mode in ExcludedModes then Drop
    else if b.kind == "friendly" then Drop
    else if b.when.None? then Crash
    else if Before(b.when.value, Cutoff) then Drop
    else if |b.teams| < 2 || |b.teams[0]| + |b.teams[1]| == 0 then Crash
    else Admit(BattleId(b.battleTime, b.teams[0], b.teams[1]))
  }

  // ---------------------------------------------------------------------
  // Orienting and encoding the two teams

  /** The logged player's team first: the teams stay as listed when the
      player is in the first one, and are swapped otherwise. */
  function Orient(playerId: string, first: Team, second: Team): (r: (Team, Team))
    ensures r == (first, second) || r == (second, first)
    ensures playerId in Tags(first) ==> r == (first, second)
    ensures playerId in Tags(first) + Tags(second) ==> playerId in Tags(r.0)
    ensures playerId !in Tags(first) + Tags(second) ==> r == (second, first)
  {
    if playerId in Tags(first) then (first, second) else (second, first)
  }

  predicate NameLe(p: Player, q: Player) {
    Strings.Le(p.brawler.name, q.brawler.name)
  }

  predicate SortedByName(s: seq<Player>) {
    forall i, j | 0 <= i < j < |s| :: NameLe(s[i], s[j])
  }

  /** Puts `p` before the first player whose brawler name is not smaller. */
  function InsertByName(p: Player, s: seq<Player>): seq<Player> {
    if s == [] || NameLe(p, s[0]) then [p] + s else [s[0]] + InsertByName(p, s[1..])
  }

  lemma {:induction false} InsertByNamePermutes(p: Player, s: seq<Player>)
    ensures multiset(InsertByName(p, s)) == multiset(s) + multiset{p}
  {
    if s != [] && !NameLe(p, s[0]) {
      InsertByNamePermutes(p, s[1..]);
      assert s == [s[0]] + s[1..];
    }
  }

  lemma SortedTail(s: seq<Player>)
    requires SortedByName(s) && s != []
    ensures SortedByName(s[1..])
  {
    var rest := s[1..];
    forall i, j | 0 <= i < j < |rest| ensures NameLe(rest[i], rest[j]) {
      assert rest[i] == s[i + 1] && rest[j] == s[j + 1];
    }
  }

  lemma SortedCons(q: Player, t: seq<Player>)
    requires SortedByName(t) && forall x | x in t :: NameLe(q, x)
    ensures SortedByName([q] + t)
  {
    var r := [q] + t;
    forall i, j | 0 <= i < j < |r| ensures NameLe(r[i], r[j]) {
      if i == 0 { assert r[j] in t; } else { assert r[i] == t[i - 1] && r[j] == t[j - 1]; }
    }
  }

  lemma {:induction false} InsertByNameSorted(p: Player, s: seq<Player>)
    requires SortedByName(s)
    ensures SortedByName(InsertByName(p, s))
  {
    if s == [] {
    } else if NameLe(p, s[0]) {
      forall j | 0 <= j < |s| ensures NameLe(p, s[j]) {
        if j > 0 { Strings.LeTransitive(p.brawler.name, s[0].brawler.name, s[j].brawler.name); }
      }
      SortedCons(p, s);
    } else {
      var rest := s[1..];
      SortedTail(s);
      InsertByNameSorted(p, rest);
      InsertByNamePermutes(p, rest);
      var tail := InsertByName(p, rest);
      Strings.LeTotal(p.brawler.name, s[0].brawler.name);
      forall q | q in tail ensures NameLe(s[0], q) {
        assert q in multiset(tail);
        if q != p { assert q in rest; }
      }
      SortedCons(s[0], tail);
    }
  }

  /** `sorted(team, key=lambda x: x["brawler"]["name"])`: a stable sort by brawler name. */
  function SortByName(team: seq<Player>): seq<Player> {
    if team == [] then [] else InsertByName(team[0], SortByName(team[1..]))
  }

  /** The sorted team is the team, rearranged in brawler-name order. */
  lemma {:induction false} SortByNameSorted(team: seq<Player>)
    ensures multiset(SortByName(team)) == multiset(team)
    ensures SortedByName(SortByName(team))
  {
    if team != [] {
      SortByNameSorted(team[1..]);
      InsertByNameSorted(team[0], SortByName(team[1..]));
      InsertByNamePermutes(team[0], SortByName(team[1..]));
      assert team == [team[0]] + team[1..];
    }
  }

  function WithName(s: seq<Player>, name: string): seq<Player> {
    if s == [] then [] else (if s[0].brawler.name == name then [s[0]] else []) + WithName(s[1..], name)
  }

  lemma {:induction false} InsertByNameWithName(p: Player, s: seq<Player>, name: string)
    ensures WithName(InsertByName(p, s), name) ==
      (if p.brawler.name == name then [p] else []) + WithName(s, name)
  {
    if s == [] || NameLe(p, s[0]) {
      assert InsertByName(p, s) == [p] + s;
      assert ([p] + s)[1..] == s;
    } else {
      var rest := s[1..];
      var tail := InsertByName(p, rest);
      assert InsertByName(p, s) == [s[0]] + tail;
      InsertByNameWithName(p, rest, name);
      assert ([s[0]] + tail)[1..] == tail;
      assert WithName(s, name) == (if s[0].brawler.name == name then [s[0]] else []) + WithName(rest, name);
      if p.brawler.name == name {
        Strings.LeReflexive(name);
        assert s[0].brawler.name != name;
      } else {
        assert WithName(tail, name) == WithName(rest, name);
      }
    }
  }

  /** The sort is stable: players with the same brawler keep their order. */
  lemma {:induction false} SortByNameStable(team: seq<Player>, name: string)
    ensures WithName(SortByName(team), name) == WithName(team, name)
  {
    if team != [] {
      SortByNameStable(team[1..], name);
      InsertByNameWithName(team[0], SortByName(team[1..]), name);
    }
  }

  /** `extract_team`: the team's brawler names, powers, trophies and tags
      as four lists of the team's length; the tags are the team's own. */
  function ExtractTeam(team: Team): (r: TeamLists)
    ensures |r.brawlers| == |r.powers| == |r.ranks| == |r.ids| == |team|
    ensures multiset(r.ids) == multiset(Tags(team))
  {
    var s := SortByName(team);
    SortByNameSorted(team);
    SortByNameTags(team);
    assert |s| == |multiset(s)| == |multiset(team)| == |team|;
    TeamLists(
      seq(|s|, i requires 0 <= i < |s| => s[i].brawler.name),
      seq(|s|, i requires 0 <= i < |s| => s[i].brawler.power),
      seq(|s|, i requires 0 <= i < |s| => s[i].brawler.trophies),
      Tags(s))
  }

  /** The four lists are aligned by position: entry `i` of each describes
      the same player, the `i`-th of the team sorted by brawler name; so
      the brawler list is in name order. */
  lemma ExtractTeamAligned(team: Team)
    ensures var r := ExtractTeam(team);
      && (forall i | 0 <= i < |team| ::
            var p := SortByName(team)[i];
            r.brawlers[i] == p.brawler.name && r.powers[i] == p.brawler.power &&
            r.ranks[i] == p.brawler.trophies && r.ids[i] == p.tag)
      && (forall i, j | 0 <= i < j < |team| :: Strings.Le(r.brawlers[i], r.brawlers[j]))
  {
    SortByNameSorted(team);
  }

  lemma {:induction false} InsertByNameTags(p: Player, s: seq<Player>)
    ensures multiset(Tags(InsertByName(p, s))) == multiset{p.tag} + multiset(Tags(s))
  {
    if s != [] && !NameLe(p, s[0]) {
      var rest := s[1..];
      InsertByNameTags(p, rest);
      assert Tags(InsertByName(p, s)) == [s[0].tag] + Tags(InsertByName(p, rest));
      assert Tags(s) == [s[0].tag] + Tags(rest);
    } else {
      assert Tags(InsertByName(p, s)) == [p.tag] + Tags(s);
    }
  }

  /** Sorting keeps the team's tags, each as often as before. */
  lemma {:induction false} SortByNameTags(team: seq<Player>)
    ensures multiset(Tags(SortByName(team))) == multiset(Tags(team))
  {
    if team != [] {
      SortByNameTags(team[1..]);
      InsertByNameTags(team[0], SortByName(team[1..]));
      assert Tags(team) == [team[0].tag] + Tags(team[1..]);
    }
  }

  // ---------------------------------------------------------------------
  // Rows and new players

  /** Victory and defeat exchanged, any other result kept. */
  function FlipResult(result: string): (r: string)
    ensures result == "victory" ==> r == "defeat"
    ensures result == "defeat" ==> r == "victory"
    ensures result != "victory" && result != "defeat" ==> r == result
  {
    if result == "victory" then "defeat" else if result == "defeat" then "victory" else result
  }

  /** The other side's view of the same battle. */
  function Flip(d: Shared): Shared {
    d.(result := FlipResult(d.result), team := d.opponents, opponents := d.team)
  }

  function RowFor(d: Shared, p: Player): Row {
    Row(d, p.tag, p.brawler.name, p.brawler.power, p.brawler.trophies)
  }

  function RowsFor(d: Shared, players: seq<Player>): (r: seq<Row>)
    ensures |r| == |players|
  {
    if players == [] then [] else [RowFor(d, players[0])] + RowsFor(d, players[1..])
  }

  lemma {:induction false} RowsForAt(d: Shared, players: seq<Player>, i: nat)
    requires i < |players|
    ensures RowsFor(d, players)[i] == RowFor(d, players[i])
  {
    if i > 0 {
      RowsForAt(d, players[1..], i - 1);
    }
  }

  /** The tags of `tags` not in `known`, each once, in order of first appearance. */
  function Discovered(known: set<string>, tags: seq<string>): seq<string>
    decreases |tags|
  {
    if tags == [] then []
    else if tags[0] in known then Discovered(known, tags[1..])
    else [tags[0]] + Discovered(known + {tags[0]}, tags[1..])
  }

  /** The new players are exactly the tags not known before, without repeats. */
  lemma {:induction false} DiscoveredExactlyNew(known: set<string>, tags: seq<string>)
    ensures var r := Discovered(known, tags);
      && (forall i, j | 0 <= i < j < |r| :: r[i] != r[j])
      && (forall t :: t in r <==> t in tags && t !in known)
    decreases |tags|
  {
    if tags != [] {
      var rest := tags[1..];
      assert forall t :: t in tags <==> t == tags[0] || t in rest;
      if tags[0] in known {
        DiscoveredExactlyNew(known, rest);
      } else {
        DiscoveredExactlyNew(known + {tags[0]}, rest);
      }
    }
  }

  function FirstIndex(s: seq<string>, t: string): (k: nat)
    requires t in s
    ensures k < |s| && s[k] == t && t !in s[..k]
  {
    if s[0] == t then 0 else 1 + FirstIndex(s[1..], t)
  }

  /** New players are listed in the order they are first met. */
  lemma FirstIndexTail(s: seq<string>, t: string)
    requires t in s && t != s[0]
    ensures t in s[1..] && FirstIndex(s, t) == 1 + FirstIndex(s[1..], t)
  {
    assert s == [s[0]] + s[1..];
  }

  lemma {:induction false} DiscoveredInEncounterOrder(known: set<string>, tags: seq<string>, i: nat, j: nat)
    requires i < j < |Discovered(known, tags)|
    ensures var r := Discovered(known, tags);
      r[i] in tags && r[j] in tags && FirstIndex(tags, r[i]) < FirstIndex(tags, r[j])
    decreases |tags|
  {
    var r := Discovered(known, tags);
    DiscoveredExactlyNew(known, tags);
    if tags[0] in known {
      DiscoveredInEncounterOrder(known, tags[1..], i, j);
      FirstIndexTail(tags, r[i]);
      FirstIndexTail(tags, r[j]);
    } else {
      var known' := known + {tags[0]};
      var rest := Discovered(known', tags[1..]);
      assert r == [tags[0]] + rest;
      DiscoveredExactlyNew(known', tags[1..]);
      assert r[j] == rest[j - 1];
      FirstIndexTail(tags, r[j]);
      if i > 0 {
        DiscoveredInEncounterOrder(known', tags[1..], i - 1, j - 1);
        assert r[i] == rest[i - 1];
        FirstIndexTail(tags, r[i]);
      }
    }
  }

  lemma {:induction false} DiscoveredAppend(known: set<string>, a: seq<string>, b: seq<string>)
    ensures Discovered(known, a + b) == Discovered(known, a) + Discovered(known + Elems(a), b)
    decreases |a|
  {
    if a == [] {
      assert a + b == b;
      assert Elems(a) == {};
      assert known + Elems(a) == known;
    } else {
      assert (a + b)[1..] == a[1..] + b;
      assert Elems(a) == {a[0]} + Elems(a[1..]);
      if a[0] in known {
        DiscoveredAppend(known, a[1..], b);
        assert known + Elems(a) == known + Elems(a[1..]);
      } else {
        DiscoveredAppend(known + {a[0]}, a[1..], b);
        assert known + {a[0]} + Elems(a[1..]) == known + Elems(a);
      }
    }
  }

  /** What `process_player` has built so far: `seen_battles`,
      `processed_players`, `battles_to_insert` and `new_players`. */
  datatype State = State(seen: set<string>, processed: set<string>, rows: seq<Row>, newPlayers: seq<string>)

  /** One pass of the per-player loop of one side: a row per player, and
      each player not yet processed recorded as new. */
  function Emit(st: State, d: Shared, players: seq<Player>): (r: State)
    ensures r.seen == st.seen
    ensures r.rows == st.rows + RowsFor(d, players)
    decreases |players|
  {
    if players == [] then st
    else
      var p := players[0];
      var next := State(
        st.seen,
        st.processed + {p.tag},
        st.rows + [RowFor(d, p)],
        if p.tag in st.processed then st.newPlayers else st.newPlayers + [p.tag]);
      assert RowsFor(d, players) == [RowFor(d, p)] + RowsFor(d, players[1..]);
      assert next.rows + RowsFor(d, players[1..]) == st.rows + RowsFor(d, players);
      Emit(next, d, players[1..])
  }

  /** After one side's loop, `processed_players` also holds the side's tags. */
  lemma {:induction false} EmitProcessed(st: State, d: Shared, players: seq<Player>)
    ensures Emit(st, d, players).processed == st.processed + Elems(Tags(players))
    decreases |players|
  {
    var tags := Tags(players);
    if players == [] {
      assert Elems(tags) == {};
    } else {
      var p := players[0];
      var next := State(
        st.seen,
        st.processed + {p.tag},
        st.rows + [RowFor(d, p)],
        if p.tag in st.processed then st.newPlayers else st.newPlayers + [p.tag]);
      assert Emit(st, d, players) == Emit(next, d, players[1..]);
      EmitProcessed(next, d, players[1..]);
      assert tags[0] == p.tag && tags[1..] == Tags(players[1..]);
      assert Elems(tags) == {p.tag} + Elems(tags[1..]);
    }
  }

  /** After one side's loop, `new_players` has grown by the side's tags
      that were not processed before, each once, in the order met. */
  lemma {:induction false} EmitNewPlayers(st: State, d: Shared, players: seq<Player>)
    ensures Emit(st, d, players).newPlayers == st.newPlayers + Discovered(st.processed, Tags(players))
    decreases |players|
  {
    if players != [] {
      var tags := Tags(players);
      var p := players[0];
      var next := State(
        st.seen,
        st.processed + {p.tag},
        st.rows + [RowFor(d, p)],
        if p.tag in st.processed then st.newPlayers else st.newPlayers + [p.tag]);
      assert Emit(st, d, players) == Emit(next, d, players[1..]);
      EmitNewPlayers(next, d, players[1..]);
      assert tags[0] == p.tag && tags[1..] == Tags(players[1..]);
      assert p.tag in st.processed ==> next.processed == st.processed;
      var found := Discovered(next.processed, tags[1..]);
      assert Discovered(st.processed, tags) == (if p.tag in st.processed then [] else [p.tag]) + found;
      assert next.newPlayers + found == st.newPlayers + Discovered(st.processed, tags);
    }
  }

  /** The teams of an admitted battle, the logged player's first. */
  function Oriented(playerId: string, b: Battle): (Team, Team)
    requires |b.teams| >= 2
  {
    Orient(playerId, b.teams[0], b.teams[1])
  }

  /** The `data` dict of an admitted battle, from the first team's side. */
  function SharedOf(playerId: string, b: Battle, id: string): Shared
    requires |b.teams| >= 2
  {
    var (team1, team2) := Oriented(playerId, b);
    Shared(id, b.battleTime, b.mode, b.gameMap, b.kind, b.result, ExtractTeam(team1), ExtractTeam(team2))
  }

  /** An admitted battle whose id is new: the id is marked seen, the
      first team's rows are emitted, then the second team's, from the
      other side. */
  function Accept(playerId: string, st: State, b: Battle, id: string): (r: State)
    requires |b.teams| >= 2
    ensures r.seen == st.seen + {id}
  {
    var (team1, team2) := Oriented(playerId, b);
    var d := SharedOf(playerId, b, id);
    Emit(Emit(st.(seen := st.seen + {id}), d, team1), Flip(d), team2)
  }

  /** The participants of an admitted battle, the logged player's team first. */
  function Participants(playerId: string, b: Battle): seq<string>
    requires |b.teams| >= 2
  {
    var (team1, team2) := Oriented(playerId, b);
    Tags(team1) + Tags(team2)
  }

  /** An accepted battle appends one row per participant: the first team's
      rows from its side, then the second team's from the other side. */
  lemma AcceptRows(playerId: string, st: State, b: Battle, id: string)
    requires |b.teams| >= 2
    ensures var (team1, team2) := Oriented(playerId, b);
      var d := SharedOf(playerId, b, id);
      var rows := Accept(playerId, st, b, id).rows;
      && rows == st.rows + RowsFor(d, team1) + RowsFor(Flip(d), team2)
      && |rows| == |st.rows| + |b.teams[0]| + |b.teams[1]|
      && rows[..|st.rows|] == st.rows
  {
    var (team1, team2) := Oriented(playerId, b);
    var d := SharedOf(playerId, b, id);
    assert (st.rows + RowsFor(d, team1) + RowsFor(Flip(d), team2))[..|st.rows|] == st.rows;
  }

  /** Both sides' loops together add both teams' tags to the processed set. */
  lemma EmitBothProcessed(st: State, d1: Shared, first: seq<Player>, d2: Shared, second: seq<Player>)
    ensures Emit(Emit(st, d1, first), d2, second).processed ==
      st.processed + Elems(Tags(first) + Tags(second))
  {
    EmitProcessed(st, d1, first);
    EmitProcessed(Emit(st, d1, first), d2, second);
    assert Elems(Tags(first) + Tags(second)) == Elems(Tags(first)) + Elems(Tags(second));
  }

  /** Both sides' loops together record, in the order met, the tags of
      both teams that were not processed before. */
  lemma EmitBothNewPlayers(st: State, d1: Shared, first: seq<Player>, d2: Shared, second: seq<Player>)
    ensures Emit(Emit(st, d1, first), d2, second).newPlayers ==
      st.newPlayers + Discovered(st.processed, Tags(first) + Tags(second))
  {
    var mid := Emit(st, d1, first);
    EmitProcessed(st, d1, first);
    EmitNewPlayers(st, d1, first);
    EmitNewPlayers(mid, d2, second);
    DiscoveredAppend(st.processed, Tags(first), Tags(second));
    var found1, found2 := Discovered(st.processed, Tags(first)), Discovered(mid.processed, Tags(second));
    assert (st.newPlayers + found1) + found2 == st.newPlayers + (found1 + found2);
  }

  /** An accepted battle adds its participants to `processed_players`, and
      appends to `new_players` those not processed before, once each, in
      the order met. */
  lemma AcceptRegisters(playerId: string, st: State, b: Battle, id: string)
    requires |b.teams| >= 2
    ensures Accept(playerId, st, b, id).processed == st.processed + Elems(Participants(playerId, b))
    ensures Accept(playerId, st, b, id).newPlayers ==
      st.newPlayers + Discovered(st.processed, Participants(playerId, b))
  {
    var (team1, team2) := Oriented(playerId, b);
    var d := SharedOf(playerId, b, id);
    EmitBothProcessed(st.(seen := st.seen + {id}), d, team1, Flip(d), team2);
    EmitBothNewPlayers(st.(seen := st.seen + {id}), d, team1, Flip(d), team2);
  }

  /** One battle-log item: `None` when processing it raises, the new state otherwise. */
  function StepBattle(playerId: string, st: State, b: Battle): (r: Option<State>)
    ensures r.None? <==> Screen(b) == Crash
    ensures Screen(b) == Drop ==> r == Some(st)
    ensures Screen(b).Admit? && Screen(b).id in st.seen ==> r == Some(st)
    ensures Screen(b).Admit? && Screen(b).id !in st.seen ==> r == Some(Accept(playerId, st, b, Screen(b).id))
  {
    match Screen(b)
    case Drop => Some(st)
    case Crash => None
    case Admit(id) => if id in st.seen then Some(st) else Some(Accept(playerId, st, b, id))
  }

  /** Processing the same battle a second time changes nothing. */
  lemma StepBattleIdempotent(playerId: string, st: State, b: Battle, st': State)
    requires StepBattle(playerId, st, b) == Some(st')
    ensures StepBattle(playerId, st', b) == Some(st')
  {
  }

  /** Two rows of one battle, one from each side. */
  predicate Mirrored(x: Row, y: Row) {
    && y.shared.battleId == x.shared.battleId
    && y.shared.battleTime == x.shared.battleTime
    && y.shared.gameMode == x.shared.gameMode
    && y.shared.gameMap == x.shared.gameMap
    && y.shared.gameType == x.shared.gameType
    && y.shared.result == FlipResult(x.shared.result)
    && y.shared.team == x.shared.opponents
    && y.shared.opponents == x.shared.team
  }

  /** The rows one accepted battle adds, indexed: the first team's rows
      from its side, then the second team's from the other side. */
  lemma {:induction false} BothSidesAt(base: seq<Row>, d: Shared, team1: seq<Player>, team2: seq<Player>, k: nat)
    requires k < |team1| + |team2|
    ensures var added := (base + RowsFor(d, team1) + RowsFor(Flip(d), team2))[|base|..];
      && |added| == |team1| + |team2|
      && added[k] == if k < |team1| then RowFor(d, team1[k]) else RowFor(Flip(d), team2[k - |team1|])
  {
    var added := (base + RowsFor(d, team1) + RowsFor(Flip(d), team2))[|base|..];
    assert added == RowsFor(d, team1) + RowsFor(Flip(d), team2);
    if k < |team1| {
      RowsForAt(d, team1, k);
    } else {
      RowsForAt(Flip(d), team2, k - |team1|);
    }
  }

  /** The per-battle fields carry the logged result, the id, and the two
      oriented teams' tags. */
  lemma SharedOfFacts(playerId: string, b: Battle, id: string)
    requires |b.teams| >= 2
    ensures var (team1, team2) := Oriented(playerId, b);
      var d := SharedOf(playerId, b, id);
      && d.result == b.result && d.battleId == id
      && multiset(d.team.ids) == multiset(Tags(team1))
      && multiset(d.opponents.ids) == multiset(Tags(team2))
  {
  }

  lemma TagListed(team: seq<Player>, ids: seq<string>, i: nat)
    requires multiset(ids) == multiset(Tags(team)) && i < |team|
    ensures team[i].tag in ids
  {
    assert team[i].tag == Tags(team)[i];
    assert team[i].tag in multiset(ids);
  }

  /** Row `k` of those an admitted battle adds. */
  lemma AcceptAdded(playerId: string, st: State, b: Battle, id: string, k: nat)
    requires |b.teams| >= 2
    requires k < |Oriented(playerId, b).0| + |Oriented(playerId, b).1|
    ensures var (team1, team2) := Oriented(playerId, b);
      var d := SharedOf(playerId, b, id);
      var added := Accept(playerId, st, b, id).rows[|st.rows|..];
      && |added| == |team1| + |team2|
      && added[k] == if k < |team1| then RowFor(d, team1[k]) else RowFor(Flip(d), team2[k - |team1|])
  {
    var (team1, team2) := Oriented(playerId, b);
    var d := SharedOf(playerId, b, id);
    AcceptRows(playerId, st, b, id);
    BothSidesAt(st.rows, d, team1, team2, k);
  }

  /** The first team's rows: one per member, in team order, each keeping
      the logged result, and each listing its player in `team_ids`. */
  lemma FirstSideRows(playerId: string, st: State, b: Battle, id: string)
    requires |b.teams| >= 2
    ensures
      var (team1, team2) := Oriented(playerId, b);
      var added := Accept(playerId, st, b, id).rows[|st.rows|..];
      && |added| == |team1| + |team2|
      && forall i | 0 <= i < |team1| ::
           added[i].shared.result == b.result && added[i].shared.battleId == id
           && added[i].playerId == team1[i].tag && added[i].brawler == team1[i].brawler.name
           && added[i].power == team1[i].brawler.power && added[i].rank == team1[i].brawler.trophies
           && added[i].playerId in added[i].shared.team.ids
  {
    var (team1, team2) := Oriented(playerId, b);
    var d := SharedOf(playerId, b, id);
    var added := Accept(playerId, st, b, id).rows[|st.rows|..];
    AcceptRows(playerId, st, b, id);
    SharedOfFacts(playerId, b, id);
    forall i | 0 <= i < |team1|
      ensures added[i].shared.result == b.result && added[i].shared.battleId == id
           && added[i].playerId == team1[i].tag && added[i].brawler == team1[i].brawler.name
           && added[i].power == team1[i].brawler.power && added[i].rank == team1[i].brawler.trophies
           && added[i].playerId in added[i].shared.team.ids
    {
      AcceptAdded(playerId, st, b, id, i);
      TagListed(team1, d.team.ids, i);
    }
  }

  lemma SecondSideRowAt(playerId: string, st: State, b: Battle, id: string, j: nat)
    requires |b.teams| >= 2
    requires |Oriented(playerId, b).0| <= j < |Oriented(playerId, b).0| + |Oriented(playerId, b).1|
    ensures
      var (team1, team2) := Oriented(playerId, b);
      var added := Accept(playerId, st, b, id).rows[|st.rows|..];
      var p := team2[j - |team1|];
      && |added| == |team1| + |team2|
      && added[j].shared.battleId == id
      && added[j].playerId == p.tag && added[j].brawler == p.brawler.name
      && added[j].power == p.brawler.power && added[j].rank == p.brawler.trophies
      && added[j].playerId in added[j].shared.team.ids
  {
    var (team1, team2) := Oriented(playerId, b);
    SharedOfFacts(playerId, b, id);
    AcceptAdded(playerId, st, b, id, j);
    TagListed(team2, SharedOf(playerId, b, id).opponents.ids, j - |team1|);
  }

  /** The second team's rows: one per member, in team order, with the
      same battle id, each listing its player in its own `team_ids`. */
  lemma SecondSideRows(playerId: string, st: State, b: Battle, id: string)
    requires |b.teams| >= 2
    ensures
      var (team1, team2) := Oriented(playerId, b);
      var added := Accept(playerId, st, b, id).rows[|st.rows|..];
      && |added| == |team1| + |team2|
      && forall j | |team1| <= j < |added| ::
           var p := team2[j - |team1|];
           added[j].shared.battleId == id
           && added[j].playerId == p.tag && added[j].brawler == p.brawler.name
           && added[j].power == p.brawler.power && added[j].rank == p.brawler.trophies
           && added[j].playerId in added[j].shared.team.ids
  {
    var (team1, team2) := Oriented(playerId, b);
    var added := Accept(playerId, st, b, id).rows[|st.rows|..];
    AcceptRows(playerId, st, b, id);
    forall j | |team1| <= j < |added|
      ensures
           var p := team2[j - |team1|];
           added[j].shared.battleId == id
           && added[j].playerId == p.tag && added[j].brawler == p.brawler.name
           && added[j].power == p.brawler.power && added[j].rank == p.brawler.trophies
           && added[j].playerId in added[j].shared.team.ids
    {
      SecondSideRowAt(playerId, st, b, id, j);
    }
  }

  /** Every second-team row mirrors every first-team row: same battle,
      result flipped, team and opponents swapped. */
  lemma SidesMirrored(playerId: string, st: State, b: Battle, id: string)
    requires |b.teams| >= 2
    ensures
      var (team1, team2) := Oriented(playerId, b);
      var added := Accept(playerId, st, b, id).rows[|st.rows|..];
      forall i, j | 0 <= i < |team1| <= j < |added| :: Mirrored(added[i], added[j])
  {
    var (team1, team2) := Oriented(playerId, b);
    var added := Accept(playerId, st, b, id).rows[|st.rows|..];
    AcceptRows(playerId, st, b, id);
    forall i, j | 0 <= i < |team1| <= j < |added| ensures Mirrored(added[i], added[j]) {
      AcceptAdded(playerId, st, b, id, i);
      AcceptAdded(playerId, st, b, id, j);
    }
  }

  // ---------------------------------------------------------------------
  // A whole battle log

  /** The state reached, and whether processing raised on the way. */
  datatype Run = Run(state: State, failed: bool)

  /** The loop over the battle log: stops at the first battle that raises,
      keeping what the earlier battles did to the two sets. */
  function RunLog(playerId: string, st: State, log: seq<Battle>): Run
    decreases |log|
  {
    if log == [] then Run(st, false)
    else
      match StepBattle(playerId, st, log[0])
      case None => Run(st, true)
      case Some(next) => RunLog(playerId, next, log[1..])
  }

  /** Processing a log in two halves is processing it at once. */
  lemma {:induction false} RunLogAppend(playerId: string, st: State, a: seq<Battle>, b: seq<Battle>)
    ensures var first := RunLog(playerId, st, a);
      RunLog(playerId, st, a + b) ==
        if first.failed then first else RunLog(playerId, first.state, b)
    decreases |a|
  {
    if a == [] {
      assert a + b == b;
    } else {
      assert (a + b)[0] == a[0] && (a + b)[1..] == a[1..] + b;
      match StepBattle(playerId, st, a[0])
      case None =>
      case Some(next) => RunLogAppend(playerId, next, a[1..], b);
    }
  }

  /** One battle: the sets only grow, rows are only appended, and the
      rows added belong to a battle id that was not seen before. */
  lemma StepGrows(playerId: string, st: State, b: Battle)
    requires StepBattle(playerId, st, b).Some?
    ensures var next := StepBattle(playerId, st, b).value;
      && st.seen <= next.seen && st.processed <= next.processed
      && |st.rows| <= |next.rows| && next.rows[..|st.rows|] == st.rows
      && forall k | |st.rows| <= k < |next.rows| :: next.rows[k].shared.battleId in next.seen - st.seen
  {
    var screening := Screen(b);
    if screening.Admit? && screening.id !in st.seen {
      var id := screening.id;
      AcceptRows(playerId, st, b, id);
      AcceptRegisters(playerId, st, b, id);
      SharedOfFacts(playerId, b, id);
      var next := Accept(playerId, st, b, id);
      forall k | |st.rows| <= k < |next.rows|
        ensures next.rows[k].shared.battleId == id
      {
        AcceptAdded(playerId, st, b, id, k - |st.rows|);
        assert next.rows[k] == next.rows[|st.rows|..][k - |st.rows|];
      }
    }
  }

  /** Seen battles and processed players only grow, rows are only appended,
      and every row belongs to a battle that was not seen before. */
  lemma {:induction false} RunLogGrows(playerId: string, st: State, log: seq<Battle>)
    ensures var r := RunLog(playerId, st, log).state;
      && st.seen <= r.seen && st.processed <= r.processed
      && |st.rows| <= |r.rows| && r.rows[..|st.rows|] == st.rows
      && forall k | |st.rows| <= k < |r.rows| :: r.rows[k].shared.battleId in r.seen - st.seen
    decreases |log|
  {
    if log != [] && StepBattle(playerId, st, log[0]).Some? {
      var next := StepBattle(playerId, st, log[0]).value;
      StepGrows(playerId, st, log[0]);
      RunLogGrows(playerId, next, log[1..]);
      var r := RunLog(playerId, st, log).state;
      assert r == RunLog(playerId, next, log[1..]).state;
      forall k | |st.rows| <= k < |r.rows|
        ensures r.rows[k].shared.battleId in r.seen - st.seen
      {
        if k < |next.rows| {
          assert r.rows[k] == r.rows[..|next.rows|][k];
        }
      }
    }
  }

  /** A battle whose id the log already produced adds nothing when it comes again. */
  lemma DuplicateBattleIgnored(playerId: string, st: State, log: seq<Battle>, b: Battle)
    requires Screen(b).Admit? && Screen(b).id in RunLog(playerId, st, log).state.seen
    ensures RunLog(playerId, st, log + [b]) == RunLog(playerId, st, log)
  {
    RunLogAppend(playerId, st, log, [b]);
    var first := RunLog(playerId, st, log);
    assert [b][1..] == [];
  }

  predicate NoRepeats(s: seq<string>) {
    forall i, j | 0 <= i < j < |s| :: s[i] != s[j]
  }

  /** Appending the players discovered among `tags` keeps `prior` equal
      to the players registered since `known`, without repeats. */
  lemma AppendDiscovered(known: set<string>, processed: set<string>, prior: seq<string>, tags: seq<string>)
    requires known <= processed && Elems(prior) == processed - known && NoRepeats(prior)
    ensures var r := prior + Discovered(processed, tags);
      Elems(r) == (processed + Elems(tags)) - known && NoRepeats(r)
  {
    var found := Discovered(processed, tags);
    var r := prior + found;
    DiscoveredExactlyNew(processed, tags);
    assert Elems(r) == Elems(prior) + Elems(found);
    forall i, j | 0 <= i < j < |r| ensures r[i] != r[j] {
      if i >= |prior| {
        assert r[i] == found[i - |prior|] && r[j] == found[j - |prior|];
      } else if j >= |prior| {
        assert r[j] == found[j - |prior|] && r[i] in Elems(prior);
      }
    }
  }

  /** One battle keeps `new_players` an exact, repeat-free list of the
      players added to `processed_players` since `known`. */
  lemma StepNewPlayers(playerId: string, st: State, b: Battle, known: set<string>)
    requires StepBattle(playerId, st, b).Some?
    requires known <= st.processed && Elems(st.newPlayers) == st.processed - known
    requires NoRepeats(st.newPlayers)
    ensures var next := StepBattle(playerId, st, b).value;
      && known <= next.processed && Elems(next.newPlayers) == next.processed - known
      && NoRepeats(next.newPlayers)
  {
    var screening := Screen(b);
    if screening.Admit? && screening.id !in st.seen {
      AcceptRegisters(playerId, st, b, screening.id);
      AppendDiscovered(known, st.processed, st.newPlayers, Participants(playerId, b));
    }
  }

  /** `new_players` lists, without repeats, exactly the players the call
      added to `processed_players`. */
  lemma {:induction false} RunLogNewPlayers(playerId: string, st: State, log: seq<Battle>, known: set<string>)
    requires known <= st.processed && Elems(st.newPlayers) == st.processed - known
    requires NoRepeats(st.newPlayers)
    ensures var r := RunLog(playerId, st, log).state;
      && known <= r.processed && Elems(r.newPlayers) == r.processed - known
      && NoRepeats(r.newPlayers)
    decreases |log|
  {
    if log != [] && StepBattle(playerId, st, log[0]).Some? {
      StepNewPlayers(playerId, st, log[0], known);
      RunLogNewPlayers(playerId, StepBattle(playerId, st, log[0]).value, log[1..], known);
    }
  }

  // ---------------------------------------------------------------------
  // The crawler's shared state

  datatype Outcome = Returned(newPlayers: seq<string>) | Raised

  /** The state `main` shares with every `process_player` call: the set of
      battle ids already stored, the set of players already queued, and
      the batches handed to `insert_battles`, in order. */
  class Collector {
    var seenBattles: set<string>
    var processedPlayers: set<string>
    var insertedBatches: seq<seq<Row>>

    constructor(seen: set<string>, processed: set<string>)
      ensures seenBattles == seen && processedPlayers == processed && insertedBatches == []
    {
      seenBattles := seen;
      processedPlayers := processed;
      insertedBatches := [];
    }

    /** The inner `for player in team` loop: one row per player, and each
        player not yet queued is added to `processed_players` and to
        `new_players`. */
    method EmitTeam(data: Shared, team: Team, rows0: seq<Row>, newPlayers0: seq<string>)
      returns (rows: seq<Row>, newPlayers: seq<string>)
      modifies this
      ensures State(seenBattles, processedPlayers, rows, newPlayers) ==
        Emit(State(old(seenBattles), old(processedPlayers), rows0, newPlayers0), data, team)
      ensures insertedBatches == old(insertedBatches)
    {
      rows, newPlayers := rows0, newPlayers0;
      ghost var target := Emit(State(seenBattles, processedPlayers, rows, newPlayers), data, team);
      var j := 0;
      while j < |team|
        invariant 0 <= j <= |team|
        invariant Emit(State(seenBattles, processedPlayers, rows, newPlayers), data, team[j..]) == target
        invariant insertedBatches == old(insertedBatches)
      {
        var p := team[j];
        ghost var cur := State(seenBattles, processedPlayers, rows, newPlayers);
        assert team[j..][0] == p && team[j..][1..] == team[j + 1..];
        rows := rows + [RowFor(data, p)];
        if p.tag !in processedPlayers {
          newPlayers := newPlayers + [p.tag];
          processedPlayers := processedPlayers + {p.tag};
        }
        assert State(seenBattles, processedPlayers, rows, newPlayers) == State(
          cur.seen, cur.processed + {p.tag}, cur.rows + [RowFor(data, p)],
          if p.tag in cur.processed then cur.newPlayers else cur.newPlayers + [p.tag]);
        j := j + 1;
      }
    }

    /** `process_player`. The sets are updated in place, so what the
        battles before a raising one added to them stays; rows are
        inserted only when the whole log went through and produced some. */
    method ProcessPlayer(playerId: string, battlelog: seq<Battle>) returns (outcome: Outcome)
      modifies this
      ensures
        var run := RunLog(playerId, State(old(seenBattles), old(processedPlayers), [], []), battlelog);
        && seenBattles == run.state.seen
        && processedPlayers == run.state.processed
        && outcome == (if run.failed then Raised else Returned(run.state.newPlayers))
        && insertedBatches ==
             old(insertedBatches) + (if !run.failed && run.state.rows != [] then [run.state.rows] else [])
    {
      ghost var start := State(seenBattles, processedPlayers, [], []);
      var newPlayers: seq<string> := [];
      var rows: seq<Row> := [];
      var i := 0;
      while i < |battlelog|
        invariant 0 <= i <= |battlelog|
        invariant RunLog(playerId, start, battlelog) ==
          RunLog(playerId, State(seenBattles, processedPlayers, rows, newPlayers), battlelog[i..])
        invariant insertedBatches == old(insertedBatches)
      {
        var b := battlelog[i];
        ghost var current := State(seenBattles, processedPlayers, rows, newPlayers);
        assert battlelog[i..][0] == b && battlelog[i..][1..] == battlelog[i + 1..];
        i := i + 1;
        if b.mode in ExcludedModes {
          continue;
        }
        if b.kind == "friendly" {
          continue;
        }
        if b.when.None? {
          return Raised;
        }
        if Before(b.when.value, Cutoff) {
          continue;
        }
        if |b.teams| < 2 {
          return Raised;
        }
        var team1, team2 := b.teams[0], b.teams[1];
        if |team1| + |team2| == 0 {
          return Raised;
        }
        var id := BattleId(b.battleTime, team1, team2);
        if id in seenBattles {
          continue;
        }
        seenBattles := seenBattles + {id};
        if playerId !in Tags(team1) {
          team1, team2 := team2, team1;
        }
        var data := Shared(id, b.battleTime, b.mode, b.gameMap, b.kind, b.result, ExtractTeam(team1), ExtractTeam(team2));
        assert data == SharedOf(playerId, b, id);

        rows, newPlayers := EmitTeam(data, team1, rows, newPlayers);

        if data.result == "victory" {
          data := data.(result := "defeat");
        } else if data.result == "defeat" {
          data := data.(result := "victory");
        }
        data := data.(team := data.opponents, opponents := data.team);
        assert data == Flip(SharedOf(playerId, b, id));

        rows, newPlayers := EmitTeam(data, team2, rows, newPlayers);
        assert StepBattle(playerId, current, b) == Some(State(seenBattles, processedPlayers, rows, newPlayers));
      }
      if rows != [] {
        insertedBatches := insertedBatches + [rows];
      }
      outcome := Returned(newPlayers);
    }
  }
}
