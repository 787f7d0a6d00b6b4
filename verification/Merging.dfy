// The merge routine that the divide-and-conquer sort and the master/slave sort share
// (PPD/MPI/T3/dc.c merge, PPD/MPI/T1/master-slave.c mergeSort), and the recursive sort on it.
module Merging {
  import opened SortSpec

  // The merge of two sequences, taking from the left on ties.
  function Merged(x: seq<int>, y: seq<int>): (r: seq<int>)
    ensures |r| == |x| + |y|
  {
    if x == [] then y
    else if y == [] then x
    else if x[0] <= y[0] then [x[0]] + Merged(x[1..], y)
    else [y[0]] + Merged(x, y[1..])
  }

  lemma {:induction false} MergedKeepsValues(x: seq<int>, y: seq<int>)
    ensures multiset(Merged(x, y)) == multiset(x) + multiset(y)
  {
    if x != [] && y != [] {
      if x[0] <= y[0] {
        MergedKeepsValues(x[1..], y);
        HeadAndTail(x);
      } else {
        MergedKeepsValues(x, y[1..]);
        HeadAndTail(y);
      }
    }
  }

  // What is in a part is in the merge.
  lemma MergedHolds(x: seq<int>, y: seq<int>, z: int)
    ensures z in x || z in y ==> z in Merged(x, y)
  {
    MergedKeepsValues(x, y);
    assert z in x ==> z in multiset(x);
    assert z in y ==> z in multiset(y);
    assert z in multiset(Merged(x, y)) ==> z in Merged(x, y);
  }

  lemma HeadAndTail(s: seq<int>)
    requires s != []
    ensures s == [s[0]] + s[1..] && multiset(s) == multiset{s[0]} + multiset(s[1..])
  {
    assert s == [s[0]] + s[1..];
  }

  lemma {:induction false} MergedIsSorted(x: seq<int>, y: seq<int>)
    requires Sorted(x) && Sorted(y)
    ensures Sorted(Merged(x, y))
  {
    if x != [] && y != [] {
      if x[0] <= y[0] {
        MergedIsSorted(x[1..], y);
        LowerBoundOfMerge(x[1..], y, x[0]);
      } else {
        MergedIsSorted(x, y[1..]);
        LowerBoundOfMerge(x, y[1..], y[0]);
      }
    }
  }

  lemma LowerBoundOfMerge(x: seq<int>, y: seq<int>, low: int)
    requires forall i :: 0 <= i < |x| ==> low <= x[i]
    requires forall i :: 0 <= i < |y| ==> low <= y[i]
    ensures forall i :: 0 <= i < |x| + |y| ==> low <= Merged(x, y)[i]
  {
    MergedKeepsValues(x, y);
    forall i | 0 <= i < |x| + |y| ensures low <= Merged(x, y)[i] {
      assert Merged(x, y)[i] in multiset(x) + multiset(y);
    }
  }

  // Merging sorted parts sorts the whole.
  lemma MergedSorts(x: seq<int>, y: seq<int>)
    ensures Merged(Sort(x), Sort(y)) == Sort(x + y)
  {
    SortIsSortedPermutation(x);
    SortIsSortedPermutation(y);
    MergedIsSorted(Sort(x), Sort(y));
    MergedKeepsValues(Sort(x), Sort(y));
    SortUnique(x + y, Merged(Sort(x), Sort(y)));
  }

  // Merges array[begin..mid] and array[mid..end] in place.
  method Merge(array_: array<int>, begin: nat, mid: nat, end: nat)
    requires begin <= mid <= end <= array_.Length
    modifies array_
    ensures array_[begin..end] == Merged(old(array_[begin..mid]), old(array_[mid..end]))
    ensures array_[..begin] == old(array_[..begin]) && array_[end..] == old(array_[end..])
  {
    hide Merged;
    var size := end - begin;
    var b := new int[size];
    FillMerged(array_, begin, mid, end, b);
    ghost var m := b[..];
    for j := 0 to size
      invariant b[..] == m
      invariant array_[..begin] == old(array_[..begin]) && array_[end..] == old(array_[end..])
      invariant array_[begin..begin + j] == m[..j]
    {
      array_[begin + j] := b[j];
    }
  }

  // The first loop of the merge: the merged values go to b.
  method FillMerged(array_: array<int>, begin: nat, mid: nat, end: nat, b: array<int>)
    requires begin <= mid <= end <= array_.Length && b.Length == end - begin && b != array_
    modifies b
    ensures b[..] == Merged(array_[begin..mid], array_[mid..end])
  {
    hide Merged;
    var ib, im := begin, mid;
    ghost var all, done := Merged(array_[begin..mid], array_[mid..end]), [];
    for j := 0 to end - begin
      invariant begin <= ib <= mid <= im <= end && ib - begin + im - mid == j
      invariant b[..j] == done && done + Merged(array_[ib..mid], array_[im..end]) == all
    {
      ghost var rest := Merged(array_[ib..mid], array_[im..end]);
      var v;
      v, ib, im := TakeNext(array_, ib, mid, im, end);
      ghost var rest' := Merged(array_[ib..mid], array_[im..end]);
      b[j] := v;
      assert b[..j + 1] == done + [v];
      Associate(done, v, rest');
      done := done + [v];
      assert Merged(array_[ib..mid], array_[im..end]) == rest';
    }
    assert Merged(array_[ib..mid], array_[im..end]) == [];
    assert b[..] == b[..end - begin];
  }

  // One turn of that loop: the smaller head, the left one on ties.
  method TakeNext(array_: array<int>, ib: nat, mid: nat, im: nat, end: nat) returns (v: int, ib': nat, im': nat)
    requires ib <= mid <= im <= end <= array_.Length && (ib < mid || im < end)
    ensures ib <= ib' <= mid && im <= im' <= end && ib' - ib + im' - im == 1
    ensures Merged(array_[ib..mid], array_[im..end]) == [v] + Merged(array_[ib'..mid], array_[im'..end])
  {
    hide Merged;
    ghost var left, right := array_[ib..mid], array_[im..end];
    MergedHead(left, right);
    ib', im' := ib, im;
    if ib < mid && (im >= end || array_[ib] <= array_[im]) {
      v, ib' := array_[ib], ib + 1;
      assert left[1..] == array_[ib'..mid];
    } else {
      v, im' := array_[im], im + 1;
      assert right[1..] == array_[im'..end];
    }
  }

  lemma Associate(s: seq<int>, v: int, t: seq<int>)
    ensures s + ([v] + t) == (s + [v]) + t
  {
  }

  // The choice of one turn of the merge loop.
  lemma MergedHead(x: seq<int>, y: seq<int>)
    requires |x| + |y| > 0
    ensures if x != [] && (y == [] || x[0] <= y[0]) then Merged(x, y) == [x[0]] + Merged(x[1..], y)
            else y != [] && Merged(x, y) == [y[0]] + Merged(x, y[1..])
  {
    if x == [] {
      assert y == [y[0]] + y[1..];
    } else if y == [] {
      assert x == [x[0]] + x[1..];
    }
  }

  // The recursive merge sort of array[begin..end].
  method SortRange(array_: array<int>, begin: nat, end: nat)
    requires begin <= end <= array_.Length
    modifies array_
    ensures array_[begin..end] == Sort(old(array_[begin..end]))
    ensures array_[..begin] == old(array_[..begin]) && array_[end..] == old(array_[end..])
    decreases end - begin
  {
    hide Sort, Merged;
    if begin == end || begin == end - 1 {
      SortedIsSort(array_[begin..end]);
      return;
    }
    var mid := (begin + end) / 2;
    ghost var before, left, right, after := array_[..begin], array_[begin..mid], array_[mid..end], array_[end..];
    assert array_[begin..end] == left + right;
    Parts(array_[..], begin, mid, end);
    SortRange(array_, begin, mid);
    Parts(array_[..], begin, mid, end);
    SortRange(array_, mid, end);
    Parts(array_[..], begin, mid, end);
    Merge(array_, begin, mid, end);
    MergedSorts(left, right);
  }

  // Larger slices determine the smaller ones.
  lemma Parts(s: seq<int>, a: nat, m: nat, b: nat)
    requires a <= m <= b <= |s|
    ensures s[m..] == s[m..b] + s[b..] && s[..m] == s[..a] + s[a..m]
    ensures s[m..][..b - m] == s[m..b] && s[m..][b - m..] == s[b..]
    ensures s[..m][..a] == s[..a] && s[..m][a..] == s[a..m]
  {
  }

  lemma SortedIsSort(s: seq<int>)
    requires |s| <= 1
    ensures Sort(s) == s
  {
    SortFixesExactlySorted(s);
  }
}
