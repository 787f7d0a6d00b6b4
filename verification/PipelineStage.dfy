// One stage of the insertion-sort pipeline (PPD/MPI/T2/pipeline.c): the in-place shift of a
// value through the kept ones, and what a stage makes of all the values it takes.
module PipelineStage {
  import opened SortSpec

  // A value travels along the kept ones and changes places with every greater one: the
  // kept values afterwards and the value that is carried out.
  function Shift(kept: seq<int>, value: int): (r: (seq<int>, int))
    ensures |r.0| == |kept|
  {
    if kept == [] then ([], value)
    else if value < kept[0] then
      var (rest, out) := Shift(kept[1..], kept[0]);
      ([value] + rest, out)
    else
      var (rest, out) := Shift(kept[1..], value);
      ([kept[0]] + rest, out)
  }

  // The inner loop over the first count cells.
  method ShiftIn(vector: array<int>, count: nat, value: int) returns (out: int)
    requires count <= vector.Length
    modifies vector
    ensures vector[..count] == Shift(old(vector[..count]), value).0
    ensures out == Shift(old(vector[..count]), value).1
    ensures vector[count..] == old(vector[count..])
  {
    ghost var all := Shift(vector[..count], value);
    ghost var kept, done: seq<int> := vector[..count], [];
    out := value;
    hide Shift;
    assert [] + all.0 == all.0;
    for j := 0 to count
      invariant vector[count..] == old(vector[count..])
      invariant vector[..j] == done && vector[j..count] == kept
      invariant (done + Shift(kept, out).0, Shift(kept, out).1) == all
    {
      ShiftHead(kept, out);
      assert vector[j] == kept[0];
      ghost var rest := kept[1..];
      if out < vector[j] {
        var aux := vector[j];
        vector[j] := out;
        out := aux;
      }
      Associate(done, vector[j], Shift(rest, out).0);
      done, kept := done + [vector[j]], rest;
      assert vector[j + 1..count] == kept;
    }
    assert Shift([], out) == ([], out) by { ShiftNothing(out); }
  }

  lemma ShiftNothing(value: int)
    ensures Shift([], value) == ([], value)
  {
  }

  lemma ShiftHead(kept: seq<int>, value: int)
    requires kept != []
    ensures var (low, high) := if value < kept[0] then (value, kept[0]) else (kept[0], value);
      Shift(kept, value) == ([low] + Shift(kept[1..], high).0, Shift(kept[1..], high).1)
  {
  }

  lemma Associate(s: seq<int>, v: int, t: seq<int>)
    ensures s + ([v] + t) == (s + [v]) + t
  {
  }

  // The kept values followed by the one carried out.
  function Whole(kept: seq<int>, value: int): (w: seq<int>)
    ensures |w| == |kept| + 1
  {
    Shift(kept, value).0 + [Shift(kept, value).1]
  }

  lemma WholeHead(kept: seq<int>, value: int)
    requires kept != []
    ensures var (low, high) := if value < kept[0] then (value, kept[0]) else (kept[0], value);
      Whole(kept, value) == [low] + Whole(kept[1..], high)
  {
    ShiftHead(kept, value);
  }

  lemma {:induction false} WholeSorts(kept: seq<int>, value: int)
    requires Sorted(kept)
    ensures Sorted(Whole(kept, value))
    ensures multiset(Whole(kept, value)) == multiset(kept) + multiset{value}
  {
    if kept == [] {
      ShiftNothing(value);
    } else {
      var (low, high) := if value < kept[0] then (value, kept[0]) else (kept[0], value);
      WholeHead(kept, value);
      WholeSorts(kept[1..], high);
      hide Whole;
      SmallestFirst(low, Whole(kept[1..], high), kept[1..], high);
      assert kept == [kept[0]] + kept[1..];
    }
  }

  // Shifting into sorted values keeps them sorted and carries the greatest one out.
  lemma ShiftSorts(kept: seq<int>, value: int)
    requires Sorted(kept)
    ensures Sorted(Shift(kept, value).0 + [Shift(kept, value).1])
    ensures multiset(Shift(kept, value).0) + multiset{Shift(kept, value).1} == multiset(kept) + multiset{value}
  {
    WholeSorts(kept, value);
    hide Shift;
    assert multiset(Whole(kept, value)) == multiset(Shift(kept, value).0) + multiset{Shift(kept, value).1};
  }

  lemma SmallestFirst(low: int, s: seq<int>, t: seq<int>, high: int)
    requires Sorted(s) && multiset(s) == multiset(t) + multiset{high}
    requires low <= high && forall i :: 0 <= i < |t| ==> low <= t[i]
    ensures Sorted([low] + s) && multiset([low] + s) == multiset{low} + multiset(t) + multiset{high}
  {
    forall i | 0 <= i < |s| ensures low <= s[i] {
      assert s[i] in multiset(t) + multiset{high};
    }
  }

  // ---------- all the values of a stage ----------

  // What a stage of size ts keeps of the values xs.
  function Kept(ts: nat, xs: seq<int>): (k: seq<int>)
    ensures |k| == if |xs| <= ts then |xs| else ts
  {
    if xs == [] then []
    else
      var (k, out) := Shift(Kept(ts, xs[..|xs| - 1]), xs[|xs| - 1]);
      if |xs| <= ts then k + [out] else k
  }

  // What it forwards, in order.
  function Forwarded(ts: nat, xs: seq<int>): (f: seq<int>)
    ensures |f| == if |xs| <= ts then 0 else |xs| - ts
  {
    if |xs| <= ts then []
    else Forwarded(ts, xs[..|xs| - 1]) + [Shift(Kept(ts, xs[..|xs| - 1]), xs[|xs| - 1]).1]
  }

  // Kept and forwarded values together are the values taken; what is kept is sorted and not
  // greater than anything forwarded.
  lemma {:induction false} StageSplits(ts: nat, xs: seq<int>)
    ensures Sorted(Kept(ts, xs))
    ensures multiset(Kept(ts, xs)) + multiset(Forwarded(ts, xs)) == multiset(xs)
    ensures forall x, y :: x in Kept(ts, xs) && y in Forwarded(ts, xs) ==> x <= y
  {
    if xs != [] {
      var init, last := xs[..|xs| - 1], xs[|xs| - 1];
      StageSplits(ts, init);
      var k, f := Kept(ts, init), Forwarded(ts, init);
      ShiftSorts(k, last);
      var (k', out) := Shift(k, last);
      assert xs == init + [last];
      if |xs| > ts {
        CarriedOut(k, f, last, k', out);
        assert multiset(f + [out]) == multiset(f) + multiset{out};
        Regroup(multiset(k'), multiset(f), multiset{out}, multiset(k), multiset{last});
      } else {
        assert multiset(k' + [out]) == multiset(k') + multiset{out};
      }
    }
  }

  lemma Regroup(a: multiset<int>, b: multiset<int>, c: multiset<int>, d: multiset<int>, e: multiset<int>)
    requires a + c == d + e
    ensures a + (b + c) == (d + b) + e
  {
    assert a + (b + c) == (a + c) + b;
  }

  lemma CarriedOut(k: seq<int>, f: seq<int>, last: int, k': seq<int>, out: int)
    requires Sorted(k' + [out]) && multiset(k') + multiset{out} == multiset(k) + multiset{last}
    requires forall x, y :: x in k && y in f ==> x <= y
    requires |k| == |k'|
    ensures Sorted(k')
    ensures forall x, y :: x in k' && y in f + [out] ==> x <= y
  {
    var all := k' + [out];
    assert forall i :: 0 <= i < |k'| ==> k'[i] == all[i] <= all[|k'|] == out;
    forall x, y | x in k' && y in f + [out] ensures x <= y {
      if y in f && x !in k {
        OutWasKept(k, last, k', out, x);
      }
    }
  }

  // If a kept value is new, the value carried out was kept before.
  lemma OutWasKept(k: seq<int>, last: int, k': seq<int>, out: int, x: int)
    requires multiset(k') + multiset{out} == multiset(k) + multiset{last}
    requires x in k' && x !in k
    ensures out in k
  {
    assert (multiset(k') + multiset{out})[x] == (multiset(k) + multiset{last})[x];
    assert (multiset(k') + multiset{out})[out] == (multiset(k) + multiset{last})[out];
    assert x in multiset(k');
    assert x == last && out != last;
    assert out in multiset(k);
  }

  // A stage that takes xs keeps the smallest ts of them; sorting what it forwards gives the rest.
  lemma KeptThenForwarded(ts: nat, xs: seq<int>)
    ensures Sort(xs) == Kept(ts, xs) + Sort(Forwarded(ts, xs))
  {
    hide Kept, Forwarded, Sort;
    StageSplits(ts, xs);
    var k, f := Kept(ts, xs), Forwarded(ts, xs);
    SortIsSortedPermutation(f);
    SortedJoin(k, Sort(f), f);
    SortUnique(xs, k + Sort(f));
  }

  lemma SortedJoin(a: seq<int>, b: seq<int>, c: seq<int>)
    requires Sorted(a) && Sorted(b) && multiset(b) == multiset(c)
    requires forall x, y :: x in a && y in c ==> x <= y
    ensures Sorted(a + b) && multiset(a + b) == multiset(a) + multiset(c)
  {
    forall i, j | 0 <= i < |a| && 0 <= j < |b| ensures a[i] <= b[j] {
      assert b[j] in multiset(c);
      assert a[i] in a && b[j] in c;
    }
  }

  // What is forwarded first depends on what is taken first.
  lemma {:induction false} ForwardedPrefix(ts: nat, xs: seq<int>, m: nat)
    requires m <= |xs|
    ensures Forwarded(ts, xs[..m]) == Forwarded(ts, xs)[..if m <= ts then 0 else m - ts]
  {
    if m < |xs| {
      ForwardedPrefix(ts, xs[..|xs| - 1], m);
      assert xs[..|xs| - 1][..m] == xs[..m];
    } else {
      assert xs[..m] == xs;
    }
  }

  // The next value changes the kept ones by one shift, and forwards the value carried out.
  lemma TakeNext(ts: nat, xs: seq<int>, i: nat)
    requires i < |xs|
    ensures var (k, out) := Shift(Kept(ts, xs[..i]), xs[i]);
      if i < ts then Kept(ts, xs[..i + 1]) == k + [out]
      else Kept(ts, xs[..i + 1]) == k && Forwarded(ts, xs)[i - ts] == out
  {
    var ys := xs[..i + 1];
    assert ys[..|ys| - 1] == xs[..i] && ys[|ys| - 1] == xs[i];
    ForwardedPrefix(ts, xs, i + 1);
    if i >= ts {
      assert Forwarded(ts, ys)[i - ts] == Shift(Kept(ts, xs[..i]), xs[i]).1;
      assert Forwarded(ts, xs)[..i + 1 - ts][i - ts] == Forwarded(ts, xs)[i - ts];
    }
  }

  // ---------- the sequential program ----------

  method InsertionSort(start: array<int>, sorted: array<int>)
    requires start != sorted && start.Length == sorted.Length
    modifies sorted
    ensures sorted[..] == Sort(start[..])
  {
    hide Sort, Shift;
    ghost var input := start[..];
    assert sorted[..0] == Sort(input[..0]) by { SortOfNothing(); }
    for i := 0 to start.Length
      invariant start[..] == input
      invariant sorted[..i] == Sort(input[..i])
    {
      ghost var kept := sorted[..i];
      var value := ShiftIn(sorted, i, start[i]);
      sorted[i] := value;
      SortIsSortedPermutation(input[..i]);
      ShiftSorts(kept, input[i]);
      assert sorted[..i + 1] == sorted[..i] + [value];
      assert input[..i + 1] == input[..i] + [input[i]];
      SortUnique(input[..i + 1], sorted[..i + 1]);
    }
    assert sorted[..] == sorted[..start.Length] && input == input[..start.Length];
  }

  lemma SortOfNothing()
    ensures Sort([]) == []
  {
  }
}
