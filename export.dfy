/** The exporter's second loop: every group whose mode, map and bucket are
    all present is sorted by win rate and written to
    `data/<mode>/<map>/<bucket>-trophies.json`. The files themselves are
    not modelled; the loop's effect is the log of writes it issues. */
module Export {
  import opened Options
  import Strings
  import opened Grouping
  import Ranking

  /** `posixpath.join(a, b)`: an absolute `b` replaces `a`; otherwise `b`
      is appended, after a `/` unless `a` is empty or already ends in one. */
  function Join(a: string, b: string): string {
    if |b| > 0 && b[0] == '/' then b
    else if a == [] || a[|a| - 1] == '/' then a + b
    else a + "/" + b
  }

  /** The file name of lines 108-112. */
  function OutputPath(mode: string, gameMap: string, bucket: int): string {
    Join(Join(Join("data", mode), gameMap), Strings.IntToString(bucket) + "-trophies.json")
  }

  /** A non-empty path component that neither starts nor ends with `/`. */
  predicate Segment(s: string) {
    |s| > 0 && s[0] != '/' && s[|s| - 1] != '/'
  }

  predicate NoSlash(s: string) {
    forall i | 0 <= i < |s| :: s[i] != '/'
  }

  /** For ordinary mode and map names the path is the documented
      `data/<mode>/<map>/<bucket>-trophies.json`. */
  lemma OutputPathShape(mode: string, gameMap: string, bucket: int)
    requires Segment(mode) && Segment(gameMap)
    ensures OutputPath(mode, gameMap, bucket) ==
      "data/" + mode + "/" + gameMap + "/" + (Strings.IntToString(bucket) + "-trophies.json")
  {
    var dir := "data/" + mode;
    assert Join("data", mode) == dir;
    assert dir[|dir| - 1] == mode[|mode| - 1];
    var dir2 := dir + "/" + gameMap;
    assert Join(dir, gameMap) == dir2;
    assert dir2[|dir2| - 1] == gameMap[|gameMap| - 1];
    var file := Strings.IntToString(bucket) + "-trophies.json";
    assert file[0] == Strings.IntToString(bucket)[0];
  }

  lemma SlashAfter(a: string, x: string)
    ensures (a + "/" + x)[|a|] == '/'
    ensures forall i | 0 <= i < |a| :: (a + "/" + x)[i] == a[i]
  {
  }

  /** Two slash-free names followed by `/` split the same way only if
      they are the same name. */
  lemma {:induction false} SplitAtSlash(a: string, x: string, b: string, y: string)
    requires NoSlash(a) && NoSlash(b) && a + "/" + x == b + "/" + y
    ensures a == b && x == y
  {
    var u, v := a + "/" + x, b + "/" + y;
    SlashAfter(a, x);
    SlashAfter(b, y);
    assert |a| == |b|;
    assert a == u[..|a|] && b == v[..|b|];
    assert x == u[|a| + 1..] && y == v[|b| + 1..];
  }

  lemma Assoc(mode: string, gameMap: string, file: string)
    ensures "data/" + mode + "/" + gameMap + "/" + file == "data/" + (mode + "/" + (gameMap + "/" + file))
  {
  }

  lemma StripPrefix(p: string, a: string, b: string)
    requires p + a == p + b
    ensures a == b
  {
    assert a == (p + a)[|p|..] && b == (p + b)[|p|..];
  }

  lemma StripSuffix(a: string, b: string, q: string)
    requires a + q == b + q
    ensures a == b
  {
    assert a == (a + q)[..|a|] && b == (b + q)[..|b|];
  }

  lemma CanonicalInjective(m1: string, g1: string, f1: string, m2: string, g2: string, f2: string)
    requires NoSlash(m1) && NoSlash(g1) && NoSlash(m2) && NoSlash(g2)
    requires "data/" + m1 + "/" + g1 + "/" + f1 == "data/" + m2 + "/" + g2 + "/" + f2
    ensures m1 == m2 && g1 == g2 && f1 == f2
  {
    Assoc(m1, g1, f1);
    Assoc(m2, g2, f2);
    StripPrefix("data/", m1 + "/" + (g1 + "/" + f1), m2 + "/" + (g2 + "/" + f2));
    SplitAtSlash(m1, g1 + "/" + f1, m2, g2 + "/" + f2);
    SplitAtSlash(g1, f1, g2, f2);
  }

  /** Distinct groups with slash-free, non-empty mode and map names are
      written to distinct files. */
  lemma OutputPathInjective(m1: string, g1: string, b1: int, m2: string, g2: string, b2: int)
    requires Segment(m1) && Segment(g1) && Segment(m2) && Segment(g2)
    requires NoSlash(m1) && NoSlash(g1) && NoSlash(m2) && NoSlash(g2)
    requires OutputPath(m1, g1, b1) == OutputPath(m2, g2, b2)
    ensures m1 == m2 && g1 == g2 && b1 == b2
  {
    var suffix := "-trophies.json";
    var s1, s2 := Strings.IntToString(b1), Strings.IntToString(b2);
    OutputPathShape(m1, g1, b1);
    OutputPathShape(m2, g2, b2);
    CanonicalInjective(m1, g1, s1 + suffix, m2, g2, s2 + suffix);
    StripSuffix(s1, s2, suffix);
    Strings.IntToStringInjective(b1, b2);
  }

  /** One `json.dump` of the loop: the group, its file and its sorted list. */
  datatype Written = Written(key: GroupKey, path: string, stats: seq<Stat>)

  /** The three `is None` tests of lines 95-102. */
  predicate Writable(k: GroupKey) {
    k.gameMode.Some? && k.gameMap.Some? && k.bucket.Some?
  }

  function PathOf(k: GroupKey): string
    requires Writable(k)
  {
    OutputPath(k.gameMode.value, k.gameMap.value, k.bucket.value)
  }

  /** `brawler_stats.sort(...)` on the group's list, held in an array. */
  method SortGroup(stats: seq<Stat>) returns (sorted: seq<Stat>)
    ensures sorted == Ranking.SortDesc(stats)
  {
    var a := new Stat[|stats|](i requires 0 <= i < |stats| => stats[i]);
    assert a[..] == stats;
    Ranking.SortByWinRate(a);
    sorted := a[..];
  }

  /** `writes` is the log after the loop has visited the groups `done`:
      one write per visited group that has a mode, a map and a bucket,
      to its path, with its list sorted. */
  predicate Logged(data: map<GroupKey, seq<Stat>>, done: set<GroupKey>, writes: seq<Written>) {
    && (set w | w in writes :: w.key) == (set k | k in done && Writable(k))
    && (forall i, j | 0 <= i < j < |writes| :: writes[i].key != writes[j].key)
    && (forall w | w in writes ::
          w.key in data && Writable(w.key) && w.path == PathOf(w.key) && w.stats == Ranking.SortDesc(data[w.key]))
  }

  lemma SkipGroup(data: map<GroupKey, seq<Stat>>, done: set<GroupKey>, writes: seq<Written>, key: GroupKey)
    requires Logged(data, done, writes) && !Writable(key)
    ensures Logged(data, done + {key}, writes)
  {
    assert (set k | k in done + {key} && Writable(k)) == (set k | k in done && Writable(k));
  }

  lemma KeysAppend(writes: seq<Written>, w: Written)
    ensures (set v | v in writes + [w] :: v.key) == (set v | v in writes :: v.key) + {w.key}
  {
  }

  lemma WritableAdd(done: set<GroupKey>, key: GroupKey)
    requires Writable(key)
    ensures (set k | k in done + {key} && Writable(k)) == (set k | k in done && Writable(k)) + {key}
  {
  }

  lemma FreshKeyAppend(writes: seq<Written>, w: Written)
    requires forall i, j | 0 <= i < j < |writes| :: writes[i].key != writes[j].key
    requires forall v | v in writes :: v.key != w.key
    ensures var writes' := writes + [w];
      forall i, j | 0 <= i < j < |writes'| :: writes'[i].key != writes'[j].key
  {
    var writes' := writes + [w];
    forall i, j | 0 <= i < j < |writes'| ensures writes'[i].key != writes'[j].key {
      if j == |writes| {
        assert writes[i] in writes;
      } else {
        assert writes'[i] == writes[i] && writes'[j] == writes[j];
      }
    }
  }

  lemma WriteGroup(data: map<GroupKey, seq<Stat>>, done: set<GroupKey>, writes: seq<Written>, key: GroupKey)
    requires Logged(data, done, writes) && key in data && Writable(key) && key !in done
    ensures Logged(data, done + {key}, writes + [Written(key, PathOf(key), Ranking.SortDesc(data[key]))])
  {
    var w := Written(key, PathOf(key), Ranking.SortDesc(data[key]));
    KeysAppend(writes, w);
    WritableAdd(done, key);
    forall v | v in writes ensures v.key != key {
      assert v.key in (set u | u in writes :: u.key);
    }
    FreshKeyAppend(writes, w);
  }

  /** Lines 94-116: each group with a mode, a map and a bucket is written
      once, to its own path, sorted by win rate; no other group is
      written. The groups come in whatever order the dictionaries yield. */
  method ExportGroups(data: map<GroupKey, seq<Stat>>) returns (writes: seq<Written>)
    ensures (set w | w in writes :: w.key) == (set k | k in data && Writable(k))
    ensures forall i, j | 0 <= i < j < |writes| :: writes[i].key != writes[j].key
    ensures forall w | w in writes ::
      w.key in data && Writable(w.key) && w.path == PathOf(w.key) && w.stats == Ranking.SortDesc(data[w.key])
  {
    writes := [];
    var pending := data.Keys;
    while pending != {}
      invariant pending <= data.Keys
      invariant Logged(data, data.Keys - pending, writes)
      decreases |pending|
    {
      var key :| key in pending;
      ghost var done := data.Keys - pending;
      pending := pending - {key};
      assert data.Keys - pending == done + {key};
      if key.gameMode.None? || key.gameMap.None? || key.bucket.None? {
        SkipGroup(data, done, writes, key);
        continue;
      }
      var sorted := SortGroup(data[key]);
      var path := OutputPath(key.gameMode.value, key.gameMap.value, key.bucket.value);
      WriteGroup(data, done, writes, key);
      writes := writes + [Written(key, path, sorted)];
    }
    assert data.Keys - pending == data.Keys;
  }
}
