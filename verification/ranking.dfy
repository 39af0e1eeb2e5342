/**
 * The stable sorts of the source (Python's `list.sort` with a key, with or without
 * `reverse=True`, and a cursor's `sort`), modelled once. An entry carries the
 * element's original position; ordering by (group ascending, score descending,
 * position ascending) is exactly what a stable sort on (group, -score) produces.
 */
module Ranking {
  import opened Seqs

  datatype Entry = Entry(group: int, score: real, index: nat)

  /** `a` is placed no later than `b`. */
  predicate NoLater(a: Entry, b: Entry) {
    || a.group < b.group
    || (a.group == b.group && a.score > b.score)
    || (a.group == b.group && a.score == b.score && a.index <= b.index)
  }

  ghost predicate Ranked(s: seq<Entry>) {
    forall i, j :: 0 <= i < j < |s| ==> NoLater(s[i], s[j])
  }

  /** No two entries remember the same original position. */
  ghost predicate DistinctIndices(s: seq<Entry>) {
    forall i, j :: 0 <= i < j < |s| ==> s[i].index != s[j].index
  }

  /** Inserts `x` into a ranked sequence before the first entry it may precede. */
  function Insert(x: Entry, s: seq<Entry>): (r: seq<Entry>)
    requires Ranked(s)
    ensures Ranked(r)
    ensures multiset(r) == multiset(s) + multiset{x}
  {
    if |s| == 0 then [x]
    else if NoLater(x, s[0]) then [x] + s
    else
      var t := Insert(x, s[1..]);
      RankedAfterHead(x, s, t);
      [s[0]] + t
  }

  /** The head of a ranked sequence may precede the rest with `x` inserted, when `x` may not precede it. */
  lemma RankedAfterHead(x: Entry, s: seq<Entry>, t: seq<Entry>)
    requires |s| > 0 && Ranked(s) && !NoLater(x, s[0])
    requires Ranked(t) && multiset(t) == multiset(s[1..]) + multiset{x}
    ensures Ranked([s[0]] + t)
    ensures multiset([s[0]] + t) == multiset(s) + multiset{x}
  {
    assert s == [s[0]] + s[1..];
    forall k | 0 <= k < |t| ensures NoLater(s[0], t[k]) {
      assert t[k] in multiset(s[1..]) + multiset{x};
      if t[k] != x {
        var m :| 0 <= m < |s[1..]| && s[1..][m] == t[k];
        assert s[m + 1] == t[k];
      }
    }
    var r := [s[0]] + t;
    forall i, j | 0 <= i < j < |r| ensures NoLater(r[i], r[j]) {
      assert r[j] == t[j - 1];
      if i > 0 { assert r[i] == t[i - 1]; }
    }
  }

  /** The stable sort: a ranked permutation of the input. */
  function Rank(s: seq<Entry>): (r: seq<Entry>)
    ensures Ranked(r)
    ensures multiset(r) == multiset(s)
    ensures |r| == |s|
    ensures forall k :: 0 <= k < |r| ==> r[k] in s
  {
    if |s| == 0 then []
    else
      var t := Rank(s[1..]);
      var r := Insert(s[0], t);
      SameElements(s, r);
      r
  }

  /** A sequence with the multiset of `s` holds the same elements as `s`. */
  lemma SameElements(s: seq<Entry>, r: seq<Entry>)
    requires |s| > 0 && multiset(r) == multiset(s[1..]) + multiset{s[0]}
    ensures multiset(r) == multiset(s) && |r| == |s|
    ensures forall k :: 0 <= k < |r| ==> r[k] in s
  {
    assert s == [s[0]] + s[1..];
    assert |r| == |multiset(r)| == |multiset(s)| == |s|;
    forall k | 0 <= k < |r| ensures r[k] in s {
      assert r[k] in multiset(r);
    }
  }

  /** Inserting an entry with a new position keeps positions distinct. */
  lemma {:induction false} InsertKeepsDistinct(x: Entry, s: seq<Entry>)
    requires Ranked(s) && DistinctIndices(s)
    requires forall k :: 0 <= k < |s| ==> s[k].index != x.index
    ensures DistinctIndices(Insert(x, s))
  {
    if |s| > 0 && !NoLater(x, s[0]) {
      var t := Insert(x, s[1..]);
      InsertKeepsDistinct(x, s[1..]);
      assert s == [s[0]] + s[1..];
      forall k | 0 <= k < |t| ensures t[k].index != s[0].index {
        assert t[k] in multiset(s[1..]) + multiset{x};
      }
    }
  }

  /** Sorting entries with distinct positions keeps them distinct. */
  lemma {:induction false} RankKeepsDistinct(s: seq<Entry>)
    requires DistinctIndices(s)
    ensures DistinctIndices(Rank(s))
  {
    if |s| > 0 {
      var t := Rank(s[1..]);
      RankKeepsDistinct(s[1..]);
      forall k | 0 <= k < |t| ensures t[k].index != s[0].index {
        assert t[k] in s[1..];
      }
      InsertKeepsDistinct(s[0], t);
    }
  }

  /** A ranked permutation is unique, so `Rank` is the only result a stable sort can give. */
  lemma {:induction false} RankedUnique(a: seq<Entry>, b: seq<Entry>)
    requires Ranked(a) && Ranked(b)
    requires multiset(a) == multiset(b)
    ensures a == b
  {
    if |a| == 0 {
      assert |b| == |multiset(b)| == 0;
    } else {
      assert |b| == |multiset(b)| == |multiset(a)| == |a|;
      assert a[0] in multiset(b);
      assert b[0] in multiset(a);
      var i :| 0 <= i < |b| && b[i] == a[0];
      var j :| 0 <= j < |a| && a[j] == b[0];
      assert NoLater(b[0], a[0]) by {
        if i > 0 { assert NoLater(b[0], b[i]); }
      }
      assert NoLater(a[0], b[0]) by {
        if j > 0 { assert NoLater(a[0], a[j]); }
      }
      assert a[0] == b[0];
      MultisetTail(a);
      MultisetTail(b);
      RankedUnique(a[1..], b[1..]);
    }
  }

  lemma MultisetTail(a: seq<Entry>)
    requires |a| > 0
    ensures multiset(a[1..]) == multiset(a) - multiset{a[0]}
  {
    assert a == [a[0]] + a[1..];
  }

  /** Entries of one group with equal scores keep their original relative order. */
  lemma RankIsStable(s: seq<Entry>, i: int, j: int)
    requires 0 <= i < j < |Rank(s)|
    requires Rank(s)[i].group == Rank(s)[j].group && Rank(s)[i].score == Rank(s)[j].score
    ensures Rank(s)[i].index <= Rank(s)[j].index
  {
  }

  /**
   * Entries of one group, each remembering its own position: sort them and keep the
   * first `n` positions. They come in strict order and outrank every position left out,
   * a tie going to the earlier position.
   */
  function TopIndices(entries: seq<Entry>, n: nat): (order: seq<nat>)
    requires forall i :: 0 <= i < |entries| ==> entries[i].index == i && entries[i].group == 0
    ensures |order| == if |entries| < n then |entries| else n
    ensures forall k :: 0 <= k < |order| ==> order[k] < |entries|
    ensures forall i, j :: 0 <= i < j < |order| ==> order[i] != order[j]
    ensures forall i, j :: 0 <= i < j < |order| ==>
              entries[order[i]].score > entries[order[j]].score
              || (entries[order[i]].score == entries[order[j]].score && order[i] < order[j])
    ensures forall j, k :: 0 <= j < |entries| && j !in order && 0 <= k < |order| ==>
              entries[order[k]].score > entries[j].score
              || (entries[order[k]].score == entries[j].score && order[k] < j)
  {
    var all := SortedIndices(entries);
    var m := if |entries| < n then |entries| else n;
    SortedPrefix(entries, all, m);
    all[..m]
  }

  /** The first `m` sorted positions are in strict order and outrank every position after them. */
  lemma SortedPrefix(entries: seq<Entry>, all: seq<nat>, m: nat)
    requires forall i :: 0 <= i < |entries| ==> entries[i].index == i && entries[i].group == 0
    requires IsPermutationOf(all, |entries|) && m <= |all|
    requires forall i, j :: 0 <= i < j < |all| ==> NoLater(entries[all[i]], entries[all[j]])
    ensures var top := all[..m];
            && |top| == m
            && (forall k :: 0 <= k < |top| ==> top[k] < |entries|)
            && (forall i, j :: 0 <= i < j < |top| ==> top[i] != top[j])
            && (forall i, j :: 0 <= i < j < |top| ==>
                  entries[top[i]].score > entries[top[j]].score
                  || (entries[top[i]].score == entries[top[j]].score && top[i] < top[j]))
            && (forall j, k :: 0 <= j < |entries| && j !in top && 0 <= k < |top| ==>
                  entries[top[k]].score > entries[j].score
                  || (entries[top[k]].score == entries[j].score && top[k] < j))
  {
    var top := all[..m];
    assert forall k :: 0 <= k < |top| ==> top[k] == all[k];
    forall i, j | 0 <= i < j < |top|
      ensures entries[top[i]].score > entries[top[j]].score
              || (entries[top[i]].score == entries[top[j]].score && top[i] < top[j])
    {
      assert NoLater(entries[all[i]], entries[all[j]]);
    }
    forall j, k | 0 <= j < |entries| && j !in top && 0 <= k < |top|
      ensures entries[top[k]].score > entries[j].score
              || (entries[top[k]].score == entries[j].score && top[k] < j)
    {
      assert j in all;
      var p :| 0 <= p < |all| && all[p] == j;
      assert k < p;
      assert NoLater(entries[all[k]], entries[all[p]]);
    }
  }

  /**
   * The positions of entries (each remembering its own position) in the order the
   * stable sort puts them: every position exactly once, each placed no later than
   * any that follows it.
   */
  function SortedIndices(entries: seq<Entry>): (order: seq<nat>)
    requires forall i :: 0 <= i < |entries| ==> entries[i].index == i
    ensures IsPermutationOf(order, |entries|)
    ensures forall i, j :: 0 <= i < j < |order| ==> NoLater(entries[order[i]], entries[order[j]])
  {
    var ranked := Rank(entries);
    assert DistinctIndices(entries);
    RankKeepsDistinct(entries);
    RankedPositions(entries, ranked);
    PositionsOfRanked(entries, ranked);
    Positions(ranked)
  }

  function Positions(s: seq<Entry>): (r: seq<nat>)
    ensures |r| == |s| && forall k :: 0 <= k < |s| ==> r[k] == s[k].index
  {
    seq(|s|, k requires 0 <= k < |s| => s[k].index)
  }

  lemma PositionsOfRanked(entries: seq<Entry>, ranked: seq<Entry>)
    requires Ranked(ranked) && DistinctIndices(ranked)
    requires |ranked| == |entries|
    requires forall k :: 0 <= k < |ranked| ==> ranked[k].index < |entries| && ranked[k] == entries[ranked[k].index]
    requires forall j :: 0 <= j < |entries| ==> entries[j] in ranked
    requires forall i :: 0 <= i < |entries| ==> entries[i].index == i
    ensures IsPermutationOf(Positions(ranked), |entries|)
    ensures var order := Positions(ranked);
            forall i, j :: 0 <= i < j < |order| ==> NoLater(entries[order[i]], entries[order[j]])
  {
    var order := Positions(ranked);
    forall j | 0 <= j < |entries| ensures j in order {
      var k :| 0 <= k < |ranked| && ranked[k] == entries[j];
      assert order[k] == j;
    }
  }

  /** In a ranked permutation of entries that remember their positions, each position occurs once. */
  lemma RankedPositions(entries: seq<Entry>, ranked: seq<Entry>)
    requires forall i :: 0 <= i < |entries| ==> entries[i].index == i
    requires Ranked(ranked) && multiset(ranked) == multiset(entries)
    ensures |ranked| == |entries|
    ensures forall k :: 0 <= k < |ranked| ==> ranked[k].index < |entries| && ranked[k] == entries[ranked[k].index]
    ensures forall j :: 0 <= j < |entries| ==> entries[j] in ranked
  {
    assert |ranked| == |multiset(ranked)| == |multiset(entries)| == |entries|;
    forall k | 0 <= k < |ranked| ensures ranked[k].index < |entries| && ranked[k] == entries[ranked[k].index] {
      assert ranked[k] in multiset(entries);
    }
    forall j | 0 <= j < |entries| ensures entries[j] in ranked {
      assert entries[j] in multiset(ranked);
    }
  }
}
