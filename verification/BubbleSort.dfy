// The two in-place sorting routines of the phase sort (PPD/MPI/T4/maiki.c).
module BubbleSort {
  import opened SortSpec

  // s with the neighbours i and i + 1 exchanged.
  function Swapped(s: seq<int>, i: nat): (r: seq<int>)
    requires i + 1 < |s|
    ensures |r| == |s|
  {
    s[i := s[i + 1]][i + 1 := s[i]]
  }

  // Exchanges the neighbours i and i + 1 of the first m cells.
  method SwapNeighbours(vector: array<int>, i: nat, ghost m: nat)
    requires i + 1 < m <= vector.Length
    requires vector[i] > vector[i + 1]
    modifies vector
    ensures vector[..m] == Swapped(old(vector[..m]), i)
    ensures vector[m..] == old(vector[m..])
    ensures multiset(vector[..m]) == old(multiset(vector[..m]))
    ensures Inversions(vector[..m]) + 1 == old(Inversions(vector[..m]))
  {
    ghost var was := vector[..m];
    var aux := vector[i];
    vector[i] := vector[i + 1];
    vector[i + 1] := aux;
    assert vector[..m] == Swapped(was, i);
    SwapRemovesOneInversion(was, i);
  }

  // The pairs (k, k + 1) with k < end are in order.
  ghost predicate OrderedUpTo(s: seq<int>, end: nat) {
    forall k :: 0 <= k < end && k < |s| - 1 ==> s[k] <= s[k + 1]
  }

  // The pairs (k, k + 1) with k = i, i + 2, i + 4, ... are in order.
  ghost predicate PairsInOrder(s: seq<int>, i: nat)
    decreases |s| - i
  {
    i + 1 < |s| ==> s[i] <= s[i + 1] && PairsInOrder(s, i + 2)
  }

  // One pass over the first size + 1 cells; swaps counts its exchanges.
  method BubblePass(vector: array<int>, size: nat) returns (sorted: int, ghost swaps: nat)
    requires size < vector.Length
    modifies vector
    ensures vector[size + 1..] == old(vector[size + 1..])
    ensures multiset(vector[..size + 1]) == old(multiset(vector[..size + 1]))
    ensures swaps + Inversions(vector[..size + 1]) == old(Inversions(vector[..size + 1]))
    ensures sorted == if swaps == 0 then 1 else 0
    ensures swaps == 0 ==> Sorted(vector[..size + 1])
  {
    ghost var m := size + 1;
    ghost var input, rest := vector[..m], vector[m..];
    ghost var now := input;
    sorted, swaps := 1, 0;
    for i := 0 to size
      invariant vector[..m] == now && vector[m..] == rest
      invariant multiset(now) == multiset(input)
      invariant swaps + Inversions(now) == Inversions(input)
      invariant sorted == if swaps == 0 then 1 else 0
      invariant swaps == 0 ==> OrderedUpTo(now, i)
    {
      assert vector[i] == now[i] && vector[i + 1] == now[i + 1];
      if vector[i] > vector[i + 1] {
        SwapNeighbours(vector, i, m);
        now := Swapped(now, i);
        sorted := 0;
        swaps := swaps + 1;
      }
    }
    if swaps == 0 {
      NeighboursSuffice(now);
    }
  }

  // Sorts the first size + 1 cells. The result says whether they were sorted already;
  // swaps counts the exchanges, one for each inversion of the input, and passes the passes, of which
  // all but the last exchange something.
  method BubbleSort(vector: array<int>, size: nat) returns (returnSorted: int, ghost swaps: nat, ghost passes: nat)
    requires size < vector.Length
    modifies vector
    ensures vector[..size + 1] == Sort(old(vector[..size + 1]))
    ensures vector[size + 1..] == old(vector[size + 1..])
    ensures returnSorted == if Sorted(old(vector[..size + 1])) then 1 else 0
    ensures swaps == Inversions(old(vector[..size + 1])) && 1 <= passes <= 1 + swaps
  {
    ghost var m := size + 1;
    ghost var input := vector[..m];
    var sorted := 0;
    returnSorted, swaps, passes := 1, 0, 0;
    while sorted == 0
      invariant if sorted == 0 then passes <= swaps else 1 <= passes <= 1 + swaps
      invariant vector[m..] == old(vector[m..])
      invariant multiset(vector[..m]) == multiset(input)
      invariant swaps + Inversions(vector[..m]) == Inversions(input)
      invariant returnSorted == if swaps == 0 then 1 else 0
      invariant sorted == 0 || Sorted(vector[..m])
      decreases Inversions(vector[..m]), sorted == 0
    {
      ghost var passSwaps;
      sorted, passSwaps := BubblePass(vector, size);
      swaps, passes := swaps + passSwaps, passes + 1;
      if sorted == 0 {
        returnSorted := 0;
      }
    }
    SortUnique(input, vector[..m]);
    SortedIffNoInversions(vector[..m]);
    SortedIffNoInversions(input);
  }

  // One half-pass of the odd-even transposition sort: compares the pairs (i, i + 1) for
  // i = first, first + 2, ...
  method TransposePairs(vector: array<int>, first: nat) returns (ghost swaps: nat, swapped: bool)
    requires vector.Length % 2 == 0 && first < 2
    modifies vector
    ensures multiset(vector[..]) == old(multiset(vector[..]))
    ensures swaps + Inversions(vector[..]) == old(Inversions(vector[..]))
    ensures swapped <==> swaps != 0
    ensures swaps == 0 ==> vector[..] == old(vector[..]) && PairsInOrder(vector[..], first)
  {
    ghost var n := vector.Length;
    ghost var input := vector[..];
    ghost var now := input;
    ghost var j, half := 0, n / 2;
    assert input == vector[..n];
    swaps, swapped := 0, false;
    var i := first;
    while i < vector.Length - first
      invariant 0 <= j && i == first + 2 * j <= n + first && n == 2 * half
      invariant vector[..n] == now
      invariant multiset(now) == multiset(input)
      invariant swaps + Inversions(now) == Inversions(input)
      invariant swapped <==> swaps != 0
      invariant swaps == 0 ==> now == input && (PairsInOrder(now, i) ==> PairsInOrder(now, first))
    {
      assert i + 1 < n;
      assert vector[i] == now[i] && vector[i + 1] == now[i + 1];
      if vector[i] > vector[i + 1] {
        SwapNeighbours(vector, i, n);
        now := Swapped(now, i);
        swaps, swapped := swaps + 1, true;
      }
      i, j := i + 2, j + 1;
    }
    assert vector[..] == now;
  }

  // The sequential program, on an even number of cells: an odd number would make the
  // second half-pass compare the last cell with the one after the array. Again one exchange for each
  // inversion, and at most one pass more than exchanges.
  method OetSort(vector: array<int>) returns (ghost swaps: nat, ghost passes: nat)
    requires vector.Length % 2 == 0
    modifies vector
    ensures vector[..] == Sort(old(vector[..]))
    ensures swaps == Inversions(old(vector[..])) && 1 <= passes <= 1 + swaps
  {
    ghost var input := vector[..];
    var sorted := 0;
    swaps, passes := 0, 0;
    while sorted == 0
      invariant swaps + Inversions(vector[..]) == Inversions(input)
      invariant if sorted == 0 then passes <= swaps else 1 <= passes <= 1 + swaps
      invariant multiset(vector[..]) == multiset(input)
      invariant sorted == 0 || Sorted(vector[..])
      decreases Inversions(vector[..]), sorted == 0
    {
      sorted := 1;
      ghost var oddSwaps, evenSwaps;
      var oddSwapped, evenSwapped;
      oddSwaps, oddSwapped := TransposePairs(vector, 1);
      evenSwaps, evenSwapped := TransposePairs(vector, 0);
      swaps, passes := swaps + oddSwaps + evenSwaps, passes + 1;
      if oddSwapped || evenSwapped {
        sorted := 0;
      } else {
        PairsCoverNeighbours(vector[..]);
      }
    }
    SortUnique(input, vector[..]);
    SortedIffNoInversions(vector[..]);
  }

  lemma PairsCoverNeighbours(s: seq<int>)
    requires PairsInOrder(s, 0) && PairsInOrder(s, 1)
    ensures Sorted(s)
  {
    PairsCoverFrom(s, 0);
    NeighboursSuffice(s);
  }

  lemma {:induction false} PairsCoverFrom(s: seq<int>, i: nat)
    requires PairsInOrder(s, i) && PairsInOrder(s, i + 1)
    ensures forall k :: i <= k < |s| - 1 ==> s[k] <= s[k + 1]
    decreases |s| - i
  {
    if i < |s| {
      PairsCoverFrom(s, i + 1);
    }
  }
}
