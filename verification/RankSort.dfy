// The rank sort of one chunk (PPD/MPI/T1/master-slave.c): every value goes to the position
// given by the number of smaller values.
module RankSort {
  import opened SortSpec

  // What the loop over the first n values makes of the prior contents of the output.
  function RankedUpTo(v: seq<int>, prior: seq<int>, n: nat): (r: seq<int>)
    requires |v| == |prior| && n <= |v|
    ensures |r| == |v|
  {
    if n == 0 then prior
    else RankIsIndex(v, n - 1); RankedUpTo(v, prior, n - 1)[CountBelow(v, v[n - 1]) := v[n - 1]]
  }

  function Ranked(v: seq<int>, prior: seq<int>): (r: seq<int>)
    requires |v| == |prior|
    ensures |r| == |v|
  {
    RankedUpTo(v, prior, |v|)
  }

  lemma {:induction false} CountBelowAndEqual(v: seq<int>, x: int)
    ensures CountBelow(v, x) + multiset(v)[x] <= |v|
  {
    if v != [] {
      CountBelowAndEqual(v[..|v| - 1], x);
      assert v == v[..|v| - 1] + [v[|v| - 1]];
    }
  }

  lemma RankIsIndex(v: seq<int>, i: nat)
    requires i < |v|
    ensures CountBelow(v, v[i]) < |v|
  {
    CountBelowAndEqual(v, v[i]);
    assert v[i] in multiset(v);
  }

  // A greater value has all the smaller one's predecessors and its copies below it.
  lemma {:induction false} CountBelowGrows(v: seq<int>, x: int, y: int)
    requires x < y
    ensures CountBelow(v, x) + multiset(v)[x] <= CountBelow(v, y)
  {
    if v != [] {
      CountBelowGrows(v[..|v| - 1], x, y);
      assert v == v[..|v| - 1] + [v[|v| - 1]];
    }
  }

  method RankSort(size: nat, v: array<int>, vSort: array<int>)
    requires v != vSort && v.Length == vSort.Length == size
    modifies vSort
    ensures vSort[..] == Ranked(v[..], old(vSort[..]))
  {
    ghost var prior := vSort[..];
    for i := 0 to size
      invariant v[..] == old(v[..])
      invariant vSort[..] == RankedUpTo(v[..], prior, i)
    {
      var rank := RankOf(v, i);
      RankIsIndex(v[..], i);
      vSort[rank] := v[i];
    }
  }

  // The inner loop: how many values are smaller than v[i].
  method RankOf(v: array<int>, i: nat) returns (rank: nat)
    requires i < v.Length
    ensures rank == CountBelow(v[..], v[i])
  {
    rank := 0;
    for j := 0 to v.Length
      invariant rank == CountBelow(v[..j], v[i])
    {
      assert v[..j + 1] == v[..j] + [v[j]] && v[..j + 1][..j] == v[..j];
      if v[i] > v[j] {
        rank := rank + 1;
      }
    }
    assert v[..v.Length] == v[..];
  }

  // In sorted order a value stands where its rank says.
  lemma RankIsPosition(v: seq<int>, i: nat)
    requires i < |v|
    ensures CountBelow(v, v[i]) < |v| && Sort(v)[CountBelow(v, v[i])] == v[i]
  {
    hide Sort;
    var s, x := Sort(v), v[i];
    RankIsIndex(v, i);
    SortIsSortedPermutation(v);
    CountBelowOfPermutation(v, s, x);
    assert x in multiset(s);
    var k :| 0 <= k < |s| && s[k] == x;
    FirstOfEqual(s, k);
  }

  // The rank of a value in a sorted sequence is the first of the positions that hold it.
  lemma {:induction false} FirstOfEqual(s: seq<int>, k: nat)
    requires Sorted(s) && k < |s|
    ensures CountBelow(s, s[k]) <= k && s[CountBelow(s, s[k])] == s[k]
  {
    var t, x := s[..|s| - 1], s[k];
    assert forall i :: 0 <= i < |t| ==> t[i] == s[i];
    if k < |s| - 1 {
      FirstOfEqual(t, k);
    } else if t != [] && t[|t| - 1] == x {
      FirstOfEqual(t, |t| - 1);
    } else {
      AllBelow(t, x);
    }
  }

  lemma {:induction false} AllBelow(t: seq<int>, x: int)
    requires forall i :: 0 <= i < |t| ==> t[i] < x
    ensures CountBelow(t, x) == |t|
  {
    if t != [] {
      AllBelow(t[..|t| - 1], x);
    }
  }

  lemma {:induction false} WrittenCells(v: seq<int>, prior: seq<int>, n: nat)
    requires |v| == |prior| && n <= |v|
    ensures forall j :: 0 <= j < n ==> CountBelow(v, v[j]) < |v| && RankedUpTo(v, prior, n)[CountBelow(v, v[j])] == v[j]
  {
    hide Sort;
    if n > 0 {
      WrittenCells(v, prior, n - 1);
      RankIsPosition(v, n - 1);
      forall j | 0 <= j < n ensures CountBelow(v, v[j]) < |v| && RankedUpTo(v, prior, n)[CountBelow(v, v[j])] == v[j] {
        RankIsPosition(v, j);
      }
    }
  }

  lemma {:induction false} UnwrittenCell(v: seq<int>, prior: seq<int>, n: nat, k: nat)
    requires |v| == |prior| && n <= |v| && k < |v|
    requires forall j :: 0 <= j < n ==> CountBelow(v, v[j]) != k
    ensures RankedUpTo(v, prior, n)[k] == prior[k]
  {
    if n > 0 {
      UnwrittenCell(v, prior, n - 1, k);
      RankIsIndex(v, n - 1);
    }
  }

  // Some value of v has rank k.
  ghost predicate IsRank(v: seq<int>, k: nat) {
    exists i :: 0 <= i < |v| && CountBelow(v, v[i]) == k
  }

  // On distinct values the ranks are distinct, so that every cell is written exactly once.
  lemma RanksAreBijective(v: seq<int>)
    requires Distinct(v)
    ensures forall i, j :: 0 <= i < j < |v| ==> CountBelow(v, v[i]) != CountBelow(v, v[j])
    ensures forall k :: 0 <= k < |v| ==> IsRank(v, k)
  {
    hide Sort;
    forall i, j | 0 <= i < j < |v| ensures CountBelow(v, v[i]) != CountBelow(v, v[j]) {
      RankIsPosition(v, i);
      RankIsPosition(v, j);
    }
    forall k | 0 <= k < |v| ensures IsRank(v, k) {
      var i := PositionHasRank(v, k);
    }
  }

  // The value in position k of the sorted order has rank k.
  lemma PositionHasRank(v: seq<int>, k: nat) returns (i: nat)
    requires Distinct(v) && k < |v|
    ensures i < |v| && v[i] == Sort(v)[k] && CountBelow(v, v[i]) == k
  {
    hide Sort;
    var s := Sort(v);
    SortIsSortedPermutation(v);
    assert s[k] in multiset(v);
    i :| 0 <= i < |v| && v[i] == s[k];
    CountBelowOfPermutation(v, s, s[k]);
    FirstOfEqual(s, k);
    DistinctKeptByPermutation(v, s, CountBelow(s, s[k]), k);
  }

  lemma DistinctKeptByPermutation(v: seq<int>, s: seq<int>, a: nat, b: nat)
    requires Distinct(v) && multiset(v) == multiset(s) && a <= b < |s| && s[a] == s[b]
    ensures a == b
  {
    if a < b {
      TwoPositions(s, a, b);
    }
    AtMostOnce(v, s[a]);
  }

  lemma TwoPositions(s: seq<int>, a: nat, b: nat)
    requires a < b < |s| && s[a] == s[b]
    ensures multiset(s)[s[a]] >= 2
  {
    assert s == s[..a] + [s[a]] + s[a + 1..b] + [s[b]] + s[b + 1..];
  }

  lemma {:induction false} AtMostOnce(v: seq<int>, x: int)
    requires Distinct(v)
    ensures multiset(v)[x] <= 1
  {
    if v != [] {
      var t := v[..|v| - 1];
      assert v == t + [v[|v| - 1]];
      AtMostOnce(t, x);
      if v[|v| - 1] == x {
        assert x !in t;
        assert x !in multiset(t);
      }
    }
  }

  // Distinct values are sorted, whatever the output held before.
  lemma RankedSorts(v: seq<int>, prior: seq<int>)
    requires Distinct(v) && |v| == |prior|
    ensures Ranked(v, prior) == Sort(v)
  {
    hide Sort;
    forall k | 0 <= k < |v| ensures Ranked(v, prior)[k] == Sort(v)[k] {
      var i := PositionHasRank(v, k);
      WrittenCells(v, prior, |v|);
    }
  }

  // Two equal values leave a cell of the output unwritten.
  lemma DuplicatesLeaveACell(v: seq<int>, a: nat, b: nat) returns (k: nat)
    requires a < b < |v| && v[a] == v[b]
    ensures k < |v| && forall i :: 0 <= i < |v| ==> CountBelow(v, v[i]) != k
  {
    var x := v[a];
    k := CountBelow(v, x) + 1;
    TwoPositions(v, a, b);
    CountBelowAndEqual(v, x);
    forall i | 0 <= i < |v| ensures CountBelow(v, v[i]) != k {
      if v[i] > x {
        CountBelowGrows(v, x, v[i]);
      } else if v[i] < x {
        CountBelowGrows(v, v[i], x);
      }
    }
  }

  // The rank sort sorts a chunk for every prior contents of the output exactly when the
  // values of the chunk are distinct.
  lemma RankSortExactly(v: seq<int>)
    ensures Distinct(v) <==> forall prior: seq<int> :: |prior| == |v| ==> Ranked(v, prior) == Sort(v)
  {
    hide Sort, Ranked;
    if Distinct(v) {
      forall prior: seq<int> | |prior| == |v| ensures Ranked(v, prior) == Sort(v) {
        RankedSorts(v, prior);
      }
    } else {
      var a, b :| 0 <= a < b < |v| && v[a] == v[b];
      var k := DuplicatesLeaveACell(v, a, b);
      var prior := seq(|v|, i => Sort(v)[k] + 1);
      Unsorted(v, prior, k);
    }
  }

  lemma Unsorted(v: seq<int>, prior: seq<int>, k: nat)
    requires |v| == |prior| && k < |v| && (forall i :: 0 <= i < |v| ==> CountBelow(v, v[i]) != k)
    ensures Ranked(v, prior)[k] == prior[k]
  {
    UnwrittenCell(v, prior, |v|, k);
  }

  // ---------- repeated values ----------

  // Position i of a sequence repeats its left neighbour.
  predicate Repeats(s: seq<int>, i: nat) {
    0 < i < |s| && s[i] == s[i - 1]
  }

  // In sorted order a position is the rank of its value exactly when it does not repeat its neighbour.
  lemma RankOfPosition(s: seq<int>, i: nat)
    requires Sorted(s) && i < |s|
    ensures CountBelow(s, s[i]) == i <==> !Repeats(s, i)
  {
    FirstOfEqual(s, i);
    if Repeats(s, i) {
      FirstOfEqual(s, i - 1);
    }
    hide CountBelow;
  }

  // The output cell by cell: the sorted value, or, where that repeats its neighbour, the prior contents.
  lemma RankedCells(v: seq<int>, prior: seq<int>, i: nat)
    requires |v| == |prior| && i < |v|
    ensures |Sort(v)| == |v|
    ensures Ranked(v, prior)[i] == if Repeats(Sort(v), i) then prior[i] else Sort(v)[i]
  {
    hide Sort, RankedUpTo, CountBelow;
    var s := Sort(v);
    SortIsSortedPermutation(v);
    MultisetLength(v, s);
    RankOfPosition(s, i);
    CountBelowOfPermutation(v, s, s[i]);
    if Repeats(s, i) {
      forall a | 0 <= a < |v| ensures CountBelow(v, v[a]) != i {
        RankIsPosition(v, a);
      }
      UnwrittenCell(v, prior, |v|, i);
    } else {
      assert s[i] in multiset(v);
      var a :| 0 <= a < |v| && v[a] == s[i];
      WrittenCells(v, prior, |v|);
    }
  }

  // Every position of the sorted v that repeats its neighbour holds the same value in the prior contents.
  predicate Fills(v: seq<int>, prior: seq<int>) {
    |v| == |prior| == |Sort(v)| && forall i :: 0 <= i < |v| && Repeats(Sort(v), i) ==> prior[i] == Sort(v)[i]
  }

  // The rank sort is right exactly when the prior contents hold the repeated values already.
  lemma RightExactlyWhenFilled(v: seq<int>, prior: seq<int>)
    requires |v| == |prior|
    ensures Ranked(v, prior) == Sort(v) <==> Fills(v, prior)
  {
    hide Sort, Ranked;
    SortIsSortedPermutation(v);
    MultisetLength(v, Sort(v));
    forall i | 0 <= i < |v|
      ensures Ranked(v, prior)[i] == if Repeats(Sort(v), i) then prior[i] else Sort(v)[i]
    {
      RankedCells(v, prior, i);
    }
    if Fills(v, prior) {
      assert Ranked(v, prior) == Sort(v);
    }
  }

  // An output that is in order lies nowhere below the sorted values.
  lemma {:induction false} InOrderIsAbove(v: seq<int>, prior: seq<int>, i: nat)
    requires |v| == |prior| && i < |v| && Sorted(Ranked(v, prior))
    ensures |Sort(v)| == |v| && Sort(v)[i] <= Ranked(v, prior)[i]
  {
    hide Sort, Ranked;
    RankedCells(v, prior, i);
    if Repeats(Sort(v), i) {
      InOrderIsAbove(v, prior, i - 1);
    }
  }
}
