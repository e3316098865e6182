/** Ordering and grouping shared by the reports: a stable insertion sort under a
    total preorder (what Python's `sorted` and SQL's `ORDER BY` promise), grouping of
    (key, weight) pairs in first-appearance order (a Python dict filled left to right,
    or SQL's `GROUP BY ... SUM`), and the top-n cut of such a grouping. */
module Aggregate {
  import opened Wrappers

  // ---------------------------------------------------------------------------
  // Selection

  /** The elements of `s` that satisfy `p`, in their original order (a WHERE clause
      or a list comprehension with a condition). */
  function Filter<T(!new)>(s: seq<T>, p: T -> bool): (r: seq<T>)
    ensures |r| <= |s|
    ensures forall x :: x in r <==> x in s && p(x)
  {
    if s == [] then [] else Filter(s[..|s| - 1], p) + (if p(s[|s| - 1]) then [s[|s| - 1]] else [])
  }

  lemma {:induction false} FilterAll<T(!new)>(s: seq<T>, p: T -> bool)
    requires forall x :: x in s ==> p(x)
    ensures Filter(s, p) == s
  {
    if s != [] {
      var init, last := s[..|s| - 1], s[|s| - 1];
      forall x | x in init ensures p(x) {
        var i :| 0 <= i < |init| && init[i] == x;
        assert s[i] == x;
      }
      FilterAll(init, p);
      assert p(last) by { assert s[|s| - 1] == last; }
      assert init + [last] == s;
    }
  }

  // ---------------------------------------------------------------------------
  // Sorting

  ghost predicate Total<T(!new)>(le: (T, T) -> bool) {
    forall a, b :: le(a, b) || le(b, a)
  }

  predicate SortedBy<T>(s: seq<T>, le: (T, T) -> bool) {
    forall i :: 0 < i < |s| ==> le(s[i - 1], s[i])
  }

  /** Inserts `x` in front of the first element it is not after; equal elements
      that were already present stay behind it. */
  function Insert<T(!new)>(x: T, s: seq<T>, le: (T, T) -> bool): (r: seq<T>)
    requires Total(le) && SortedBy(s, le)
    ensures SortedBy(r, le)
    ensures multiset(r) == multiset(s) + multiset{x}
    ensures r[0] == x || (s != [] && r[0] == s[0])
  {
    if s == [] then [x]
    else if le(x, s[0]) then [x] + s
    else
      var rest := Insert(x, s[1..], le);
      assert s == [s[0]] + s[1..];
      [s[0]] + rest
  }

  /** Stable insertion sort: the result is ordered by `le` and is a permutation of `s`. */
  function Sort<T(!new)>(s: seq<T>, le: (T, T) -> bool): (r: seq<T>)
    requires Total(le)
    ensures SortedBy(r, le)
    ensures multiset(r) == multiset(s)
    ensures |r| == |s|
  {
    if s == [] then []
    else
      assert s == [s[0]] + s[1..];
      Insert(s[0], Sort(s[1..], le), le)
  }

  // ---------------------------------------------------------------------------
  // Grouping (key, weight) pairs

  type Entry = (string, int)

  predicate DistinctKeys(t: seq<Entry>) {
    forall i, j :: 0 <= i < j < |t| ==> t[i].0 != t[j].0
  }

  function KeySet(t: seq<Entry>): set<string> {
    set i | 0 <= i < |t| :: t[i].0
  }

  /** The summed weight of key `k` in `t`. */
  function Weight(t: seq<Entry>, k: string): int {
    if t == [] then 0 else (if t[0].0 == k then t[0].1 else 0) + Weight(t[1..], k)
  }

  /** The summed weight of all of `t`. */
  function TotalWeight(t: seq<Entry>): int {
    if t == [] then 0 else t[0].1 + TotalWeight(t[1..])
  }

  /** One step of the dictionary update loop: add `p`'s weight to its key's entry,
      or append a new entry for an unseen key. */
  function Add(t: seq<Entry>, p: Entry): seq<Entry> {
    if t == [] then [p]
    else if t[0].0 == p.0 then [(p.0, t[0].1 + p.1)] + t[1..]
    else [t[0]] + Add(t[1..], p)
  }

  /** The grouping of `ps` by key, in order of first appearance. */
  function Tally(ps: seq<Entry>): seq<Entry> {
    if ps == [] then [] else Add(Tally(ps[..|ps| - 1]), ps[|ps| - 1])
  }

  lemma {:induction false} WeightAppend(s: seq<Entry>, x: Entry, k: string)
    ensures Weight(s + [x], k) == Weight(s, k) + (if x.0 == k then x.1 else 0)
  {
    if s != [] {
      assert (s + [x])[1..] == s[1..] + [x];
      WeightAppend(s[1..], x, k);
    }
  }

  lemma {:induction false} TotalWeightAppend(s: seq<Entry>, x: Entry)
    ensures TotalWeight(s + [x]) == TotalWeight(s) + x.1
  {
    if s != [] {
      assert (s + [x])[1..] == s[1..] + [x];
      TotalWeightAppend(s[1..], x);
    }
  }

  lemma {:induction false} WeightConcat(s: seq<Entry>, u: seq<Entry>, k: string)
    ensures Weight(s + u, k) == Weight(s, k) + Weight(u, k)
  {
    if s != [] {
      assert (s + u)[1..] == s[1..] + u;
      WeightConcat(s[1..], u, k);
    } else {
      assert s + u == u;
    }
  }

  lemma {:induction false} AddWeight(t: seq<Entry>, p: Entry, k: string)
    ensures Weight(Add(t, p), k) == Weight(t, k) + (if p.0 == k then p.1 else 0)
  {
    if t != [] && t[0].0 != p.0 {
      AddWeight(t[1..], p, k);
    }
  }

  lemma {:induction false} AddTotalWeight(t: seq<Entry>, p: Entry)
    ensures TotalWeight(Add(t, p)) == TotalWeight(t) + p.1
  {
    if t != [] && t[0].0 != p.0 {
      AddTotalWeight(t[1..], p);
    }
  }

  lemma {:induction false} KeySetCons(x: Entry, t: seq<Entry>)
    ensures KeySet([x] + t) == {x.0} + KeySet(t)
  {
    var u := [x] + t;
    forall k | k in KeySet(u) ensures k in {x.0} + KeySet(t) {
      var i :| 0 <= i < |u| && u[i].0 == k;
      if i > 0 { assert t[i - 1].0 == k; }
    }
    forall k | k in {x.0} + KeySet(t) ensures k in KeySet(u) {
      if k == x.0 {
        assert u[0].0 == k;
      } else {
        var i :| 0 <= i < |t| && t[i].0 == k;
        assert u[i + 1].0 == k;
      }
    }
  }

  lemma {:induction false} AddKeySet(t: seq<Entry>, p: Entry)
    ensures KeySet(Add(t, p)) == KeySet(t) + {p.0}
  {
    if t == [] {
      KeySetCons(p, []);
    } else {
      assert t == [t[0]] + t[1..];
      KeySetCons(t[0], t[1..]);
      if t[0].0 != p.0 {
        AddKeySet(t[1..], p);
        KeySetCons(t[0], Add(t[1..], p));
      } else {
        KeySetCons((p.0, t[0].1 + p.1), t[1..]);
      }
    }
  }

  lemma {:induction false} AddShape(t: seq<Entry>, p: Entry)
    ensures p.0 in KeySet(t) ==> |Add(t, p)| == |t|
    ensures p.0 !in KeySet(t) ==> Add(t, p) == t + [p]
  {
    if t != [] {
      assert t == [t[0]] + t[1..];
      KeySetCons(t[0], t[1..]);
      AddShape(t[1..], p);
    }
  }

  lemma {:induction false} AddDistinct(t: seq<Entry>, p: Entry)
    requires DistinctKeys(t)
    ensures DistinctKeys(Add(t, p))
  {
    if t != [] && t[0].0 != p.0 {
      var r, rest := Add(t, p), Add(t[1..], p);
      AddDistinct(t[1..], p);
      AddKeySet(t[1..], p);
      assert t[0].0 !in KeySet(t[1..]);
      forall i, j | 0 <= i < j < |r| ensures r[i].0 != r[j].0 {
        assert r[j] == rest[j - 1];
        if i == 0 {
          assert r[j].0 in KeySet(rest);
        } else {
          assert r[i] == rest[i - 1];
        }
      }
    }
  }

  lemma {:induction false} AddKeys(t: seq<Entry>, p: Entry)
    requires DistinctKeys(t)
    ensures DistinctKeys(Add(t, p))
    ensures KeySet(Add(t, p)) == KeySet(t) + {p.0}
    ensures p.0 in KeySet(t) ==> |Add(t, p)| == |t|
    ensures p.0 !in KeySet(t) ==> Add(t, p) == t + [p]
  {
    AddKeySet(t, p);
    AddShape(t, p);
    AddDistinct(t, p);
  }

  /** Adding to a grouping never moves or renames the entries already there. */
  lemma {:induction false} AddKeepsKeys(t: seq<Entry>, p: Entry)
    ensures |Add(t, p)| >= |t|
    ensures forall k :: 0 <= k < |t| ==> Add(t, p)[k].0 == t[k].0
  {
    if t != [] && t[0].0 != p.0 {
      AddKeepsKeys(t[1..], p);
    }
  }

  /** In a grouping with distinct keys, the weight of an entry's key is that entry's weight. */
  lemma {:induction false} WeightOfDistinct(t: seq<Entry>, i: int)
    requires DistinctKeys(t) && 0 <= i < |t|
    ensures Weight(t, t[i].0) == t[i].1
  {
    if i == 0 {
      WeightAbsent(t[1..], t[0].0);
    } else {
      WeightOfDistinct(t[1..], i - 1);
    }
  }

  lemma {:induction false} WeightAbsent(t: seq<Entry>, k: string)
    requires forall i :: 0 <= i < |t| ==> t[i].0 != k
    ensures Weight(t, k) == 0
  {
    if t != [] {
      WeightAbsent(t[1..], k);
    }
  }

  /** Grouping is exact: keys are distinct, the same keys occur as in the input, every
      key keeps its summed weight, and no weight is lost or invented. */
  lemma {:induction false} TallyCorrect(ps: seq<Entry>)
    ensures DistinctKeys(Tally(ps))
    ensures KeySet(Tally(ps)) == KeySet(ps)
    ensures forall k :: Weight(Tally(ps), k) == Weight(ps, k)
    ensures TotalWeight(Tally(ps)) == TotalWeight(ps)
  {
    if ps != [] {
      var init, last := ps[..|ps| - 1], ps[|ps| - 1];
      assert ps == init + [last];
      TallyCorrect(init);
      AddKeys(Tally(init), last);
      assert KeySet(ps) == KeySet(init) + {last.0} by {
        forall k | k in KeySet(ps) ensures k in KeySet(init) + {last.0} {
          var i :| 0 <= i < |ps| && ps[i].0 == k;
          if i < |init| { assert init[i].0 == k; }
        }
        forall k | k in KeySet(init) ensures k in KeySet(ps) {
          var i :| 0 <= i < |init| && init[i].0 == k;
          assert ps[i].0 == k;
        }
      }
      forall k ensures Weight(Tally(ps), k) == Weight(ps, k) {
        AddWeight(Tally(init), last, k);
        WeightAppend(init, last, k);
      }
      AddTotalWeight(Tally(init), last);
      TotalWeightAppend(init, last);
    }
  }

  /** Every entry of the grouping carries the summed weight of its key. */
  lemma {:induction false} TallyEntry(ps: seq<Entry>, i: int)
    requires 0 <= i < |Tally(ps)|
    ensures Tally(ps)[i].1 == Weight(ps, Tally(ps)[i].0)
  {
    TallyCorrect(ps);
    WeightOfDistinct(Tally(ps), i);
  }

  // ---------------------------------------------------------------------------
  // Top-n by weight

  function ByWeightDesc(): (Entry, Entry) -> bool {
    (a: Entry, b: Entry) => a.1 >= b.1
  }

  /** The `n` heaviest entries, heaviest first; among equal weights the earlier entry
      comes first (Python's `sorted(..., reverse=True)` is stable). */
  function TopN(t: seq<Entry>, n: nat): (r: seq<Entry>)
    ensures |r| == if n < |t| then n else |t|
    ensures SortedBy(r, ByWeightDesc())
    ensures multiset(r) <= multiset(t)
  {
    var s := Sort(t, ByWeightDesc());
    var r := if n < |s| then s[..n] else s;
    assert multiset(s) == multiset(r) + multiset(s[|r|..]) by {
      assert s == r + s[|r|..];
    }
    r
  }

  lemma {:induction false} SortedDescPairwise(s: seq<Entry>, i: int, j: int)
    requires SortedBy(s, ByWeightDesc())
    requires 0 <= i <= j < |s|
    ensures s[i].1 >= s[j].1
    decreases j - i
  {
    if i < j {
      SortedDescPairwise(s, i + 1, j);
      assert ByWeightDesc()(s[i], s[i + 1]);
    }
  }

  /** Nothing left out of the top-n outweighs anything kept. */
  lemma {:induction false} TopNKeepsHeaviest(t: seq<Entry>, n: nat, e: Entry, f: Entry)
    requires e in t && e !in TopN(t, n) && f in TopN(t, n)
    ensures e.1 <= f.1
  {
    var s := Sort(t, ByWeightDesc());
    var r := TopN(t, n);
    assert r == if n < |s| then s[..n] else s;
    assert e in multiset(s);
    var j :| 0 <= j < |s| && s[j] == e;
    var i :| 0 <= i < |r| && r[i] == f;
    assert j >= |r|;
    SortedDescPairwise(s, i, j);
  }

  /** A value that occurs at two positions occurs at least twice. */
  lemma {:induction false} CountAtLeastTwo<T>(s: seq<T>, i: int, j: int)
    requires 0 <= i < j < |s| && s[i] == s[j]
    ensures multiset(s)[s[i]] >= 2
  {
    assert s == s[..j] + [s[j]] + s[j + 1..];
    assert s[..j][i] == s[i];
    assert s[i] in multiset(s[..j]);
  }

  /** In a table with distinct keys every entry occurs once. */
  lemma {:induction false} DistinctKeysOnce(t: seq<Entry>, a: int)
    requires DistinctKeys(t) && 0 <= a < |t|
    ensures multiset(t)[t[a]] == 1
  {
    assert t == t[..a] + [t[a]] + t[a + 1..];
    assert t[a] !in t[..a] by {
      forall i | 0 <= i < a ensures t[..a][i] != t[a] { assert t[..a][i] == t[i]; }
    }
    assert t[a] !in t[a + 1..];
  }

  lemma {:induction false} DistinctKeysCount(t: seq<Entry>)
    requires DistinctKeys(t)
    ensures |KeySet(t)| == |t|
  {
    if t != [] {
      assert [t[0]] + t[1..] == t;
      KeySetCons(t[0], t[1..]);
      assert DistinctKeys(t[1..]) by {
        forall i, j | 0 <= i < j < |t[1..]| ensures t[1..][i].0 != t[1..][j].0 {
          assert t[1..][i] == t[i + 1] && t[1..][j] == t[j + 1];
        }
      }
      DistinctKeysCount(t[1..]);
      assert t[0].0 !in KeySet(t[1..]);
    }
  }

  /** The top-n of a table with distinct keys keeps its entries as they are and its
      keys distinct. */
  lemma {:induction false} TopNOfDistinct(t: seq<Entry>, n: nat)
    requires DistinctKeys(t)
    ensures DistinctKeys(TopN(t, n))
    ensures forall e :: e in TopN(t, n) ==> e in t && e.1 == Weight(t, e.0)
  {
    var r := TopN(t, n);
    forall e | e in r ensures e in t && e.1 == Weight(t, e.0) {
      assert e in multiset(r);
      assert e in multiset(t);
      var a :| 0 <= a < |t| && t[a] == e;
      WeightOfDistinct(t, a);
    }
    forall i, j | 0 <= i < j < |r| ensures r[i].0 != r[j].0 {
      if r[i].0 == r[j].0 {
        assert r[i] in multiset(r) && r[j] in multiset(r);
        var a :| 0 <= a < |t| && t[a] == r[i];
        var b :| 0 <= b < |t| && t[b] == r[j];
        assert a == b;
        CountAtLeastTwo(r, i, j);
        DistinctKeysOnce(t, a);
        assert false;
      }
    }
  }
}
