// Sorting, counting and inversions on sequences of integers: the specification
// that every sorting program of the repository is proved against.
module SortSpec {

  ghost predicate Sorted(s: seq<int>) {
    forall i, j :: 0 <= i < j < |s| ==> s[i] <= s[j]
  }

  ghost predicate Distinct(s: seq<int>) {
    forall i, j :: 0 <= i < j < |s| ==> s[i] != s[j]
  }

  // Inserts x after every value of s that does not exceed it.
  function Insert(x: int, s: seq<int>): (r: seq<int>)
    ensures |r| == |s| + 1
  {
    if s == [] || s[|s| - 1] <= x then s + [x] else Insert(x, s[..|s| - 1]) + [s[|s| - 1]]
  }

  // The sorted arrangement of s.
  function Sort(s: seq<int>): (r: seq<int>)
    ensures |r| == |s|
  {
    if s == [] then [] else Insert(s[|s| - 1], Sort(s[..|s| - 1]))
  }

  lemma {:induction false} InsertKeepsOrder(x: int, s: seq<int>)
    requires Sorted(s)
    ensures Sorted(Insert(x, s))
    ensures multiset(Insert(x, s)) == multiset(s) + multiset{x}
  {
    if s != [] && s[|s| - 1] > x {
      var t, y := s[..|s| - 1], s[|s| - 1];
      assert s == t + [y];
      InsertKeepsOrder(x, t);
      SortedAppend(Insert(x, t), y, multiset(t) + multiset{x});
    }
  }

  // y may follow a sorted sequence whose values m do not exceed it.
  lemma SortedAppend(r: seq<int>, y: int, m: multiset<int>)
    requires Sorted(r) && multiset(r) == m && forall v :: v in m ==> v <= y
    ensures Sorted(r + [y])
  {
    forall i | 0 <= i < |r| ensures r[i] <= y {
      assert r[i] in multiset(r);
    }
  }

  lemma {:induction false} SortIsSortedPermutation(s: seq<int>)
    ensures Sorted(Sort(s))
    ensures multiset(Sort(s)) == multiset(s)
  {
    if s != [] {
      var t := s[..|s| - 1];
      assert s == t + [s[|s| - 1]];
      SortIsSortedPermutation(t);
      InsertKeepsOrder(s[|s| - 1], Sort(t));
    }
  }

  lemma {:induction false} SortedIsUnique(a: seq<int>, b: seq<int>)
    requires Sorted(a) && Sorted(b) && multiset(a) == multiset(b)
    ensures a == b
  {
    MultisetLength(a, b);
    if a != [] {
      LastIsGreatest(a, b);
      LastIsGreatest(b, a);
      MultisetOfInit(a);
      MultisetOfInit(b);
      SortedIsUnique(a[..|a| - 1], b[..|b| - 1]);
      assert a == a[..|a| - 1] + [a[|a| - 1]];
      assert b == b[..|b| - 1] + [b[|b| - 1]];
    }
  }

  lemma MultisetOfInit(s: seq<int>)
    requires s != []
    ensures multiset(s[..|s| - 1]) == multiset(s) - multiset{s[|s| - 1]}
  {
    assert s == s[..|s| - 1] + [s[|s| - 1]];
  }

  lemma LastIsGreatest(a: seq<int>, b: seq<int>)
    requires a != [] && b != [] && Sorted(b) && multiset(a) == multiset(b)
    ensures a[|a| - 1] <= b[|b| - 1]
  {
    assert a[|a| - 1] in multiset(b);
    assert a[|a| - 1] in b;
  }

  lemma MultisetLength(a: seq<int>, b: seq<int>)
    requires multiset(a) == multiset(b)
    ensures |a| == |b|
  {
    assert |multiset(a)| == |a| && |multiset(b)| == |b|;
  }

  // Whatever is sorted and holds the values of s is Sort(s).
  lemma SortUnique(s: seq<int>, r: seq<int>)
    requires Sorted(r) && multiset(r) == multiset(s)
    ensures r == Sort(s)
  {
    SortIsSortedPermutation(s);
    SortedIsUnique(r, Sort(s));
  }

  lemma SortFixesExactlySorted(s: seq<int>)
    ensures Sort(s) == s <==> Sorted(s)
  {
    SortIsSortedPermutation(s);
    if Sorted(s) {
      SortUnique(s, s);
    }
  }

  // Sortedness needs only neighbours.
  lemma {:induction false} NeighboursSuffice(s: seq<int>)
    requires forall k :: 0 <= k < |s| - 1 ==> s[k] <= s[k + 1]
    ensures Sorted(s)
  {
    if |s| > 1 {
      var t := s[..|s| - 1];
      NeighboursSuffice(t);
      forall i | 0 <= i < |t| ensures s[i] <= s[|s| - 1] {
        assert t[i] <= t[|t| - 1];
      }
    }
  }

  // How many values of s are smaller than x.
  function CountBelow(s: seq<int>, x: int): nat {
    if s == [] then 0 else CountBelow(s[..|s| - 1], x) + (if s[|s| - 1] < x then 1 else 0)
  }

  // How many pairs (x of a, y of b) have x > y.
  function Cross(a: seq<int>, b: seq<int>): nat {
    if a == [] then 0 else Cross(a[..|a| - 1], b) + CountBelow(b, a[|a| - 1])
  }

  // How many pairs of positions of s hold their values in the wrong order.
  function Inversions(s: seq<int>): nat {
    if s == [] then 0 else Inversions(s[..|s| - 1]) + Cross(s[..|s| - 1], [s[|s| - 1]])
  }

  lemma {:induction false} CountBelowAppend(a: seq<int>, b: seq<int>, x: int)
    ensures CountBelow(a + b, x) == CountBelow(a, x) + CountBelow(b, x)
  {
    if b == [] {
      assert a + b == a;
    } else {
      assert (a + b)[..|a + b| - 1] == a + b[..|b| - 1];
      CountBelowAppend(a, b[..|b| - 1], x);
    }
  }

  lemma {:induction false} CrossAppendLeft(a: seq<int>, b: seq<int>, c: seq<int>)
    ensures Cross(a + b, c) == Cross(a, c) + Cross(b, c)
  {
    if b == [] {
      assert a + b == a;
    } else {
      assert (a + b)[..|a + b| - 1] == a + b[..|b| - 1];
      CrossAppendLeft(a, b[..|b| - 1], c);
    }
  }

  lemma {:induction false} CrossAppendRight(a: seq<int>, b: seq<int>, c: seq<int>)
    ensures Cross(a, b + c) == Cross(a, b) + Cross(a, c)
  {
    if a != [] {
      CrossAppendRight(a[..|a| - 1], b, c);
      CountBelowAppend(b, c, a[|a| - 1]);
    }
  }

  lemma {:induction false} InversionsAppend(a: seq<int>, b: seq<int>)
    ensures Inversions(a + b) == Inversions(a) + Inversions(b) + Cross(a, b)
  {
    if b == [] {
      assert a + b == a;
      CrossEmptyRight(a);
    } else {
      var t, x := b[..|b| - 1], [b[|b| - 1]];
      assert (a + b)[..|a + b| - 1] == a + t && b == t + x;
      InversionsAppend(a, t);
      CrossAppendLeft(a, t, x);
      CrossAppendRight(a, t, x);
    }
  }

  lemma {:induction false} CrossEmptyRight(a: seq<int>)
    ensures Cross(a, []) == 0
  {
    if a != [] {
      CrossEmptyRight(a[..|a| - 1]);
    }
  }

  // Exchanging two neighbours that are out of order removes exactly one inversion.
  lemma SwapRemovesOneInversion(s: seq<int>, k: nat)
    requires k + 1 < |s| && s[k] > s[k + 1]
    ensures Inversions(s[k := s[k + 1]][k + 1 := s[k]]) + 1 == Inversions(s)
    ensures multiset(s[k := s[k + 1]][k + 1 := s[k]]) == multiset(s)
  {
    var x, y, pre, post := s[k], s[k + 1], s[..k], s[k + 2..];
    assert s == pre + [x, y] + post;
    assert s[k := y][k + 1 := x] == pre + [y, x] + post;
    SwapInside(pre, x, y, post);
  }

  lemma SwapInside(pre: seq<int>, x: int, y: int, post: seq<int>)
    requires x > y
    ensures Inversions(pre + [y, x] + post) + 1 == Inversions(pre + [x, y] + post)
    ensures multiset(pre + [y, x] + post) == multiset(pre + [x, y] + post)
  {
    RearrangingAWindow(pre, [x, y], [y, x], post);
    InversionsOfPair(x, y);
    InversionsOfPair(y, x);
  }

  lemma InversionsOfPair(x: int, y: int)
    ensures Inversions([x, y]) == if x > y then 1 else 0
  {
    assert [x, y][..1] == [x] && [x][..0] == [] && [y][..0] == [];
    assert CountBelow([y], x) == if y < x then 1 else 0;
    assert Cross([x], [y]) == CountBelow([y], x);
    assert Inversions([x]) == 0;
  }

  lemma InversionsAround(pre: seq<int>, w: seq<int>, post: seq<int>)
    ensures Inversions(pre + w + post)
         == Inversions(pre) + Inversions(w) + Inversions(post) + Cross(pre, post) + Cross(pre, w) + Cross(w, post)
  {
    InversionsAppend(pre, w);
    InversionsAppend(pre + w, post);
    CrossAppendLeft(pre, w, post);
  }

  // Counting does not see the order.
  lemma {:induction false} CountBelowOfPermutation(a: seq<int>, b: seq<int>, x: int)
    requires multiset(a) == multiset(b)
    ensures CountBelow(a, x) == CountBelow(b, x)
  {
    MultisetLength(a, b);
    if a != [] {
      var v, k := TakeLast(a, b);
      CountBelowOfPermutation(a[..|a| - 1], b[..k] + b[k + 1..], x);
      CountBelowAppend(b[..k], b[k + 1..], x);
      CountBelowAppend(b[..k], [v] + b[k + 1..], x);
      CountBelowAppend([v], b[k + 1..], x);
      assert b == b[..k] + ([v] + b[k + 1..]);
      assert [v][..0] == [] && CountBelow([v], x) == if v < x then 1 else 0;
    }
  }

  lemma {:induction false} CrossOfPermutations(a: seq<int>, b: seq<int>, c: seq<int>, d: seq<int>)
    requires multiset(a) == multiset(b) && multiset(c) == multiset(d)
    ensures Cross(a, c) == Cross(b, d)
  {
    MultisetLength(a, b);
    if a != [] {
      var v, k := TakeLast(a, b);
      CrossOfPermutations(a[..|a| - 1], b[..k] + b[k + 1..], c, d);
      CrossAppendLeft(b[..k], b[k + 1..], d);
      CrossAppendLeft(b[..k], [v] + b[k + 1..], d);
      CrossAppendLeft([v], b[k + 1..], d);
      assert b == b[..k] + ([v] + b[k + 1..]);
      CountBelowOfPermutation(c, d, v);
      assert [v][..0] == [] && Cross([v], d) == CountBelow(d, v);
    }
  }

  // The last value of a, and a position of b that holds it.
  lemma TakeLast(a: seq<int>, b: seq<int>) returns (v: int, k: nat)
    requires a != [] && multiset(a) == multiset(b)
    ensures v == a[|a| - 1] && k < |b| && b[k] == v
    ensures multiset(a[..|a| - 1]) == multiset(b[..k] + b[k + 1..])
  {
    v := a[|a| - 1];
    assert v in multiset(b);
    k :| 0 <= k < |b| && b[k] == v;
    MultisetOfInit(a);
    MultisetWithout(b, k);
  }

  lemma MultisetWithout(s: seq<int>, k: nat)
    requires k < |s|
    ensures multiset(s[..k] + s[k + 1..]) == multiset(s) - multiset{s[k]}
  {
    assert s == s[..k] + [s[k]] + s[k + 1..];
  }

  // Rearranging a window changes the inversions of the whole by what it changes inside the window.
  lemma RearrangingAWindow(pre: seq<int>, w: seq<int>, v: seq<int>, post: seq<int>)
    requires multiset(w) == multiset(v)
    ensures Inversions(pre + w + post) - Inversions(w) == Inversions(pre + v + post) - Inversions(v)
    ensures multiset(pre + w + post) == multiset(pre + v + post)
  {
    InversionsAround(pre, w, post);
    InversionsAround(pre, v, post);
    CrossOfPermutations(pre, pre, w, v);
    CrossOfPermutations(w, v, post, post);
  }

  lemma {:induction false} SortedIffNoInversions(s: seq<int>)
    ensures Inversions(s) == 0 <==> Sorted(s)
  {
    if s != [] {
      var t, x := s[..|s| - 1], s[|s| - 1];
      SortedIffNoInversions(t);
      CrossZero(t, x);
      assert s == t + [x];
      assert Sorted(s) <==> Sorted(t) && forall i :: 0 <= i < |t| ==> t[i] <= x;
    }
  }

  lemma {:induction false} CrossZero(t: seq<int>, x: int)
    ensures Cross(t, [x]) == 0 <==> forall i :: 0 <= i < |t| ==> t[i] <= x
  {
    if t != [] {
      CrossZero(t[..|t| - 1], x);
      assert [x][..0] == [] && CountBelow([x], t[|t| - 1]) == if x < t[|t| - 1] then 1 else 0;
      assert t == t[..|t| - 1] + [t[|t| - 1]];
    }
  }
}
