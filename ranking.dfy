/** `brawler_stats.sort(key=lambda x: x['win_rate'], reverse=True)`: a
    stable sort by win rate, highest first. With `reverse=True` Python
    still keeps statistics of equal rate in their original order. */
module Ranking {
  import Rates
  import opened Grouping

  /** Inserts `x`, which comes after every element of `t` in the original
      list, behind the last element whose rate is not below its own. */
  function InsertDesc(x: Stat, t: seq<Stat>): seq<Stat> {
    if t == [] || !Rates.Below(t[|t| - 1].winRate, x.winRate) then t + [x]
    else InsertDesc(x, t[..|t| - 1]) + [t[|t| - 1]]
  }

  /** The sorted list, built by inserting the elements left to right. */
  function SortDesc(s: seq<Stat>): seq<Stat> {
    if s == [] then [] else InsertDesc(s[|s| - 1], SortDesc(s[..|s| - 1]))
  }

  predicate NonIncreasing(s: seq<Stat>) {
    forall i, j | 0 <= i < j < |s| :: Rates.AtMost(s[j].winRate, s[i].winRate)
  }

  /** The statistics of `s` whose rate ties with `r`, in order. */
  function Tied(s: seq<Stat>, r: Rates.Rate): seq<Stat> {
    if s == [] then []
    else Tied(s[..|s| - 1], r) + (if Rates.Tie(s[|s| - 1].winRate, r) then [s[|s| - 1]] else [])
  }

  lemma {:induction false} InsertDescPermutes(x: Stat, t: seq<Stat>)
    ensures multiset(InsertDesc(x, t)) == multiset(t) + multiset{x}
  {
    if t != [] && Rates.Below(t[|t| - 1].winRate, x.winRate) {
      var n := |t| - 1;
      InsertDescPermutes(x, t[..n]);
      assert t == t[..n] + [t[n]];
    }
  }

  /** Sorting rearranges the list and neither loses nor adds a statistic. */
  lemma {:induction false} SortDescPermutes(s: seq<Stat>)
    ensures multiset(SortDesc(s)) == multiset(s)
  {
    if s != [] {
      var n := |s| - 1;
      SortDescPermutes(s[..n]);
      InsertDescPermutes(s[n], SortDesc(s[..n]));
      assert s == s[..n] + [s[n]];
    }
  }

  lemma {:induction false} InsertDescSorted(x: Stat, t: seq<Stat>)
    requires NonIncreasing(t)
    ensures NonIncreasing(InsertDesc(x, t))
  {
    if t == [] {
    } else if !Rates.Below(t[|t| - 1].winRate, x.winRate) {
      var last := t[|t| - 1];
      forall i | 0 <= i < |t| ensures Rates.AtMost(x.winRate, t[i].winRate) {
        Rates.AtMostTransitive(x.winRate, last.winRate, t[i].winRate);
      }
    } else {
      var n := |t| - 1;
      var init := t[..n];
      assert NonIncreasing(init) by {
        forall i, j | 0 <= i < j < |init| ensures Rates.AtMost(init[j].winRate, init[i].winRate) {
          assert init[i] == t[i] && init[j] == t[j];
        }
      }
      InsertDescSorted(x, init);
      InsertDescPermutes(x, init);
      var rec := InsertDesc(x, init);
      forall q | q in rec ensures Rates.AtMost(t[n].winRate, q.winRate) {
        assert q in multiset(rec);
        if q != x {
          var i :| 0 <= i < |init| && init[i] == q;
          assert t[i] == q;
        }
      }
      var r := rec + [t[n]];
      forall i, j | 0 <= i < j < |r| ensures Rates.AtMost(r[j].winRate, r[i].winRate) {
        if j == |rec| {
          assert r[i] in rec;
        } else {
          assert r[i] == rec[i] && r[j] == rec[j];
        }
      }
    }
  }

  /** The sorted list has its win rates in non-increasing order. */
  lemma {:induction false} SortDescSorted(s: seq<Stat>)
    ensures NonIncreasing(SortDesc(s))
  {
    if s != [] {
      var n := |s| - 1;
      SortDescSorted(s[..n]);
      InsertDescSorted(s[n], SortDesc(s[..n]));
    }
  }

  lemma {:induction false} TiedAppend(s: seq<Stat>, t: seq<Stat>, r: Rates.Rate)
    ensures Tied(s + t, r) == Tied(s, r) + Tied(t, r)
    decreases |t|
  {
    if t != [] {
      var n := |t| - 1;
      TiedAppend(s, t[..n], r);
      assert (s + t)[..|s + t| - 1] == s + t[..n] && (s + t)[|s + t| - 1] == t[n];
      var last := if Rates.Tie(t[n].winRate, r) then [t[n]] else [];
      assert Tied(s + t, r) == Tied(s + t[..n], r) + last;
      assert Tied(t, r) == Tied(t[..n], r) + last;
    } else {
      assert s + t == s;
    }
  }

  lemma {:induction false} InsertDescTied(x: Stat, t: seq<Stat>, r: Rates.Rate)
    ensures Tied(InsertDesc(x, t), r) == Tied(t, r) + Tied([x], r)
  {
    if t == [] || !Rates.Below(t[|t| - 1].winRate, x.winRate) {
      TiedAppend(t, [x], r);
    } else {
      var n := |t| - 1;
      var init := t[..n];
      InsertDescTied(x, init, r);
      TiedAppend(InsertDesc(x, init), [t[n]], r);
      assert t == init + [t[n]];
      TiedAppend(init, [t[n]], r);
      if Rates.Tie(x.winRate, r) {
        Rates.BelowNotTie(t[n].winRate, x.winRate, r);
      }
    }
  }

  /** Stability: among statistics of equal rate the sorted list keeps the
      original order. */
  lemma {:induction false} SortDescStable(s: seq<Stat>, r: Rates.Rate)
    ensures Tied(SortDesc(s), r) == Tied(s, r)
  {
    if s != [] {
      var n := |s| - 1;
      SortDescStable(s[..n], r);
      InsertDescTied(s[n], SortDesc(s[..n]), r);
    }
  }

  /** One step of the inner loop: an element below `x` lets `x` pass. */
  lemma InsertDescPasses(x: Stat, t: seq<Stat>, j: nat)
    requires 0 < j <= |t| && Rates.Below(t[j - 1].winRate, x.winRate)
    ensures InsertDesc(x, t[..j]) + t[j..] == InsertDesc(x, t[..j - 1]) + t[j - 1..]
  {
    assert t[..j][..j - 1] == t[..j - 1];
    assert t[j - 1..] == [t[j - 1]] + t[j..];
  }

  /** Where the inner loop stops, `x` goes. */
  lemma InsertDescStops(x: Stat, t: seq<Stat>, j: nat)
    requires j <= |t| && (j == 0 || !Rates.Below(t[j - 1].winRate, x.winRate))
    ensures InsertDesc(x, t[..j]) == t[..j] + [x]
  {
  }

  /** Moves `a[i]` left past the elements of the prefix `a[..i]` whose
      rate is below its own. */
  method InsertAt(a: array<Stat>, i: nat)
    requires i < a.Length
    modifies a
    ensures a[..i + 1] == InsertDesc(old(a[i]), old(a[..i]))
    ensures a[i + 1..] == old(a[i + 1..])
  {
    var x := a[i];
    ghost var t := a[..i];
    var j := i;
    assert t[..j] == t && t[j..] == [];
    while j > 0 && Rates.Below(a[j - 1].winRate, x.winRate)
      invariant 0 <= j <= i
      invariant forall k | 0 <= k < j :: a[k] == t[k]
      invariant forall k | j < k <= i :: a[k] == t[k - 1]
      invariant forall k | i < k < a.Length :: a[k] == old(a[k])
      invariant InsertDesc(x, t) == InsertDesc(x, t[..j]) + t[j..]
    {
      InsertDescPasses(x, t, j);
      a[j] := a[j - 1];
      j := j - 1;
    }
    InsertDescStops(x, t, j);
    a[j] := x;
    assert a[..i + 1] == t[..j] + [x] + t[j..];
  }

  /** The in-place sort of `pull_analytics.py` line 105, as an insertion
      sort on the list's array. */
  method SortByWinRate(a: array<Stat>)
    modifies a
    ensures a[..] == SortDesc(old(a[..]))
  {
    ghost var s := a[..];
    var i := 0;
    while i < a.Length
      invariant 0 <= i <= a.Length
      invariant a[..i] == SortDesc(s[..i])
      invariant a[i..] == s[i..]
    {
      assert s[..i + 1][..i] == s[..i] && a[i] == s[i];
      InsertAt(a, i);
      i := i + 1;
    }
    assert a[..] == a[..i] && s == s[..i];
  }
}
