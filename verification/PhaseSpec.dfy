// The phase-parallel sort (PPD/MPI/T4/maiki.c) on values: what one round does to the
// private buffers of the ranks, and to the one array that the buffers stand for.
module PhaseSpec {
  import opened SortSpec

  // np ranks, ts values a rank, c values shared with the next rank.
  datatype Config = Config(np: nat, ts: nat, c: nat) {
    // What the program demands: every even rank has a next rank, and a shared stretch
    // reaches no further than one rank.
    ghost predicate Valid() {
      np >= 2 && np % 2 == 0 && ts >= 1 && c <= ts
    }

    // The first cell of rank p, which is p * ts (OffsetIsProduct).
    function Lo(p: nat): nat {
      if p == 0 then 0 else Lo(p - 1) + ts
    }

    // The cells of its buffer that rank p uses: the last rank shares nothing to its right.
    function Width(p: nat): nat {
      if p + 1 == np then ts else ts + c
    }

    function Hi(p: nat): nat {
      Lo(p) + Width(p)
    }

    function Size(): nat {
      Lo(np)
    }
  }

  lemma {:induction false} OffsetIsProduct(cfg: Config, p: nat)
    ensures cfg.Lo(p) == p * cfg.ts
  {
    if p > 0 {
      OffsetIsProduct(cfg, p - 1);
      assert p * cfg.ts == (p - 1) * cfg.ts + cfg.ts;
    }
  }

  lemma {:induction false} OffsetsGrow(cfg: Config, p: nat, q: nat)
    requires p < q
    ensures cfg.Lo(p) + cfg.ts <= cfg.Lo(q)
  {
    if p < q - 1 {
      OffsetsGrow(cfg, p, q - 1);
    }
  }

  lemma WindowFits(cfg: Config, p: nat)
    requires cfg.Valid() && p < cfg.np
    ensures cfg.Hi(p) <= cfg.Size()
    ensures p + 1 < cfg.np ==> cfg.Lo(p + 1) == cfg.Lo(p) + cfg.ts && cfg.Hi(p) == cfg.Lo(p + 1) + cfg.c
    ensures p + 2 <= cfg.np ==> cfg.Hi(p) <= cfg.Lo(p + 2)
  {
    OffsetsGrow(cfg, p, cfg.np);
    if p + 2 < cfg.np {
      OffsetsGrow(cfg, p + 1, cfg.np);
    }
  }

  // ---------- the global array ----------

  function SortWindow(g: seq<int>, lo: nat, hi: nat): (r: seq<int>)
    requires lo <= hi <= |g|
    ensures |r| == |g|
  {
    g[..lo] + Sort(g[lo..hi]) + g[hi..]
  }

  // Sorts in place the windows of the ranks p, p + 2, p + 4, ...
  function SortWindows(cfg: Config, g: seq<int>, p: nat): (r: seq<int>)
    requires cfg.Valid() && |g| == cfg.Size()
    ensures |r| == |g|
    decreases cfg.np - p
  {
    if p >= cfg.np then g
    else
      WindowFits(cfg, p);
      SortWindows(cfg, SortWindow(g, cfg.Lo(p), cfg.Hi(p)), p + 2)
  }

  // One round of the program: all even windows, then all odd windows.
  function Round(cfg: Config, g: seq<int>): (r: seq<int>)
    requires cfg.Valid() && |g| == cfg.Size()
    ensures |r| == |g|
  {
    SortWindows(cfg, SortWindows(cfg, g, 0), 1)
  }

  // The window of rank p.
  function Window(cfg: Config, g: seq<int>, p: nat): (r: seq<int>)
    requires cfg.Valid() && |g| == cfg.Size() && p < cfg.np
    ensures |r| == cfg.Width(p)
  {
    WindowFits(cfg, p);
    g[cfg.Lo(p)..cfg.Hi(p)]
  }

  // SortWindow touches its window and nothing else.
  lemma SortWindowCells(g: seq<int>, lo: nat, hi: nat)
    requires lo <= hi <= |g|
    ensures SortWindow(g, lo, hi)[lo..hi] == Sort(g[lo..hi])
    ensures forall k :: 0 <= k < lo || hi <= k < |g| ==> SortWindow(g, lo, hi)[k] == g[k]
  {
    assert (g[..lo] + Sort(g[lo..hi]))[..lo] == g[..lo];
  }

  // Cells before the first window stay.
  lemma {:induction false} CellBefore(cfg: Config, g: seq<int>, p: nat, k: nat)
    requires cfg.Valid() && |g| == cfg.Size() && k < cfg.Lo(p) && k < |g|
    ensures SortWindows(cfg, g, p)[k] == g[k]
    decreases cfg.np - p
  {
    if p < cfg.np {
      WindowFits(cfg, p);
      OffsetsGrow(cfg, p, p + 2);
      SortWindowCells(g, cfg.Lo(p), cfg.Hi(p));
      CellBefore(cfg, SortWindow(g, cfg.Lo(p), cfg.Hi(p)), p + 2, k);
    }
  }

  // Two windows of one parity do not overlap.
  lemma WindowsApart(cfg: Config, p: nat, q: nat)
    requires cfg.Valid() && p < cfg.np && p + 2 <= q
    ensures cfg.Hi(p) <= cfg.Lo(q)
  {
    assert cfg.Lo(p + 2) == cfg.Lo(p + 1) + cfg.ts == cfg.Lo(p) + cfg.ts + cfg.ts;
    if p + 2 < q {
      OffsetsGrow(cfg, p + 2, q);
    }
  }

  // Cells between two windows of one parity stay.
  lemma {:induction false} CellBetween(cfg: Config, g: seq<int>, p: nat, q: nat, k: nat)
    requires cfg.Valid() && |g| == cfg.Size() && p <= q < cfg.np && (q - p) % 2 == 0
    requires cfg.Hi(q) <= k < cfg.Lo(q + 2) && k < |g|
    ensures SortWindows(cfg, g, p)[k] == g[k]
    decreases cfg.np - p
  {
    WindowFits(cfg, p);
    var h := SortWindow(g, cfg.Lo(p), cfg.Hi(p));
    assert h[k] == g[k] by {
      if p < q { WindowsApart(cfg, p, q); }
      SortWindowCells(g, cfg.Lo(p), cfg.Hi(p));
    }
    if q == p {
      CellBefore(cfg, h, p + 2, k);
    } else {
      CellBetween(cfg, h, p + 2, q, k);
    }
  }

  // A window that lies before the first one to be sorted stays.
  lemma WindowBefore(cfg: Config, g: seq<int>, p: nat)
    requires cfg.Valid() && |g| == cfg.Size() && p < cfg.np
    ensures Window(cfg, SortWindows(cfg, g, p + 2), p) == Window(cfg, g, p)
  {
    WindowFits(cfg, p);
    WindowsApart(cfg, p, p + 2);
    var h := SortWindows(cfg, g, p + 2);
    forall k | cfg.Lo(p) <= k < cfg.Hi(p) ensures h[k] == g[k] {
      CellBefore(cfg, g, p + 2, k);
    }
  }

  lemma OtherWindowStays(cfg: Config, g: seq<int>, p: nat, q: nat)
    requires cfg.Valid() && |g| == cfg.Size() && p + 2 <= q < cfg.np && cfg.Hi(p) <= |g|
    ensures Window(cfg, SortWindow(g, cfg.Lo(p), cfg.Hi(p)), q) == Window(cfg, g, q)
  {
    WindowFits(cfg, q);
    WindowsApart(cfg, p, q);
    SortWindowCells(g, cfg.Lo(p), cfg.Hi(p));
  }

  // Every window of the parity ends up sorted: no two of them share a cell.
  lemma {:induction false} WindowGetsSorted(cfg: Config, g: seq<int>, p: nat, q: nat)
    requires cfg.Valid() && |g| == cfg.Size() && p <= q < cfg.np && (q - p) % 2 == 0
    ensures Window(cfg, SortWindows(cfg, g, p), q) == Sort(Window(cfg, g, q))
    decreases cfg.np - p
  {
    WindowFits(cfg, p);
    var h := SortWindow(g, cfg.Lo(p), cfg.Hi(p));
    if q == p {
      WindowBefore(cfg, h, p);
      SortWindowCells(g, cfg.Lo(p), cfg.Hi(p));
    } else {
      OtherWindowStays(cfg, g, p, q);
      WindowGetsSorted(cfg, h, p + 2, q);
    }
  }

  // ---------- conservation and progress ----------

  // The inversions inside the windows of the ranks p, p + 2, p + 4, ...: what those
  // ranks exchange while they sort.
  function WindowInversions(cfg: Config, g: seq<int>, p: nat): nat
    requires cfg.Valid() && |g| == cfg.Size()
    decreases cfg.np - p
  {
    if p >= cfg.np then 0 else Inversions(Window(cfg, g, p)) + WindowInversions(cfg, g, p + 2)
  }

  lemma ReplacingAWindow(g: seq<int>, lo: nat, hi: nat, v: seq<int>)
    requires lo <= hi <= |g| && multiset(v) == multiset(g[lo..hi])
    ensures multiset(g[..lo] + v + g[hi..]) == multiset(g)
    ensures Inversions(g[..lo] + v + g[hi..]) - Inversions(v) == Inversions(g) - Inversions(g[lo..hi])
  {
    var pre, w, post := g[..lo], g[lo..hi], g[hi..];
    assert pre + w + post == g;
    hide Inversions;
    RearrangingAWindow(pre, w, v, post);
  }

  lemma SortWindowConserves(g: seq<int>, lo: nat, hi: nat)
    requires lo <= hi <= |g|
    ensures multiset(SortWindow(g, lo, hi)) == multiset(g)
    ensures Inversions(SortWindow(g, lo, hi)) + Inversions(g[lo..hi]) == Inversions(g)
  {
    var w := g[lo..hi];
    SortIsSortedPermutation(w);
    SortedIffNoInversions(Sort(w));
    ReplacingAWindow(g, lo, hi, Sort(w));
  }

  lemma {:induction false} LaterWindowInversionsStay(cfg: Config, g: seq<int>, p: nat, q: nat)
    requires cfg.Valid() && |g| == cfg.Size() && p < cfg.np && p + 2 <= q && cfg.Hi(p) <= |g|
    ensures WindowInversions(cfg, SortWindow(g, cfg.Lo(p), cfg.Hi(p)), q) == WindowInversions(cfg, g, q)
    decreases cfg.np - q
  {
    if q < cfg.np {
      OtherWindowStays(cfg, g, p, q);
      LaterWindowInversionsStay(cfg, g, p, q + 2);
    }
  }

  // Sorting windows keeps the values and removes exactly the inversions inside the windows.
  lemma {:induction false} SortWindowsConserves(cfg: Config, g: seq<int>, p: nat)
    requires cfg.Valid() && |g| == cfg.Size()
    ensures multiset(SortWindows(cfg, g, p)) == multiset(g)
    ensures Inversions(SortWindows(cfg, g, p)) + WindowInversions(cfg, g, p) == Inversions(g)
    decreases cfg.np - p
  {
    hide Inversions, SortWindow;
    if p < cfg.np {
      WindowFits(cfg, p);
      var h := SortWindow(g, cfg.Lo(p), cfg.Hi(p));
      assert multiset(h) == multiset(g) && Inversions(h) + Inversions(Window(cfg, g, p)) == Inversions(g) by {
        SortWindowConserves(g, cfg.Lo(p), cfg.Hi(p));
      }
      LaterWindowInversionsStay(cfg, g, p, p + 2);
      SortWindowsConserves(cfg, h, p + 2);
    }
  }

  // The swaps of one whole round.
  function RoundSwaps(cfg: Config, g: seq<int>): nat
    requires cfg.Valid() && |g| == cfg.Size()
  {
    WindowInversions(cfg, g, 0) + WindowInversions(cfg, SortWindows(cfg, g, 0), 1)
  }

  // A round keeps the values, and every swap of it removes exactly one inversion.
  lemma RoundConserves(cfg: Config, g: seq<int>)
    requires cfg.Valid() && |g| == cfg.Size()
    ensures multiset(Round(cfg, g)) == multiset(g)
    ensures Inversions(Round(cfg, g)) + RoundSwaps(cfg, g) == Inversions(g)
  {
    SortWindowsConserves(cfg, g, 0);
    SortWindowsConserves(cfg, SortWindows(cfg, g, 0), 1);
  }

  // No rank has anything to do.
  ghost predicate Stable(cfg: Config, g: seq<int>)
    requires cfg.Valid() && |g| == cfg.Size()
  {
    forall p :: 0 <= p < cfg.np ==> Sorted(Window(cfg, g, p))
  }

  // The windows of the ranks p, p + 2, p + 4, ... are in order.
  ghost predicate AllInOrder(cfg: Config, g: seq<int>, p: nat)
    requires cfg.Valid() && |g| == cfg.Size()
    decreases cfg.np - p
  {
    p < cfg.np ==> Sorted(Window(cfg, g, p)) && AllInOrder(cfg, g, p + 2)
  }

  lemma {:induction false} NothingToSort(cfg: Config, g: seq<int>, p: nat)
    requires cfg.Valid() && |g| == cfg.Size()
    ensures WindowInversions(cfg, g, p) == 0 <==> AllInOrder(cfg, g, p)
    ensures AllInOrder(cfg, g, p) ==> SortWindows(cfg, g, p) == g
    decreases cfg.np - p
  {
    if p < cfg.np {
      NothingToSort(cfg, g, p + 2);
      SortedIffNoInversions(Window(cfg, g, p));
      SortFixesExactlySorted(Window(cfg, g, p));
      WindowFits(cfg, p);
      assert g == g[..cfg.Lo(p)] + Window(cfg, g, p) + g[cfg.Hi(p)..];
    }
  }

  lemma {:induction false} BothParitiesInOrder(cfg: Config, g: seq<int>, p: nat)
    requires cfg.Valid() && |g| == cfg.Size()
    ensures AllInOrder(cfg, g, p) && AllInOrder(cfg, g, p + 1)
       <==> forall q :: p <= q < cfg.np ==> Sorted(Window(cfg, g, q))
    decreases cfg.np - p
  {
    if p < cfg.np {
      BothParitiesInOrder(cfg, g, p + 1);
    }
  }

  // A round swaps nothing exactly when every window is in order, and then it changes nothing.
  lemma QuietRound(cfg: Config, g: seq<int>)
    requires cfg.Valid() && |g| == cfg.Size()
    ensures RoundSwaps(cfg, g) == 0 <==> Stable(cfg, g)
    ensures Stable(cfg, g) ==> Round(cfg, g) == g
  {
    NothingToSort(cfg, g, 0);
    BothParitiesInOrder(cfg, g, 0);
    assert Stable(cfg, g) <==> AllInOrder(cfg, g, 0) && AllInOrder(cfg, g, 1);
    if AllInOrder(cfg, g, 0) {
      assert SortWindows(cfg, g, 0) == g;
      NothingToSort(cfg, g, 1);
    }
  }

  // Windows that share at least one cell chain into global order.
  lemma StableIsSorted(cfg: Config, g: seq<int>)
    requires cfg.Valid() && |g| == cfg.Size() && cfg.c >= 1
    ensures Stable(cfg, g) <==> Sorted(g)
  {
    if Stable(cfg, g) {
      forall k | 0 <= k < |g| - 1 ensures g[k] <= g[k + 1] {
        var p := RankOf(cfg, k, cfg.np);
        WindowFits(cfg, p);
        assert k + 1 < cfg.Hi(p);
        assert g[k] == Window(cfg, g, p)[k - cfg.Lo(p)] && g[k + 1] == Window(cfg, g, p)[k + 1 - cfg.Lo(p)];
      }
      NeighboursSuffice(g);
    }
    if Sorted(g) {
      forall p | 0 <= p < cfg.np ensures Sorted(Window(cfg, g, p)) {
        WindowFits(cfg, p);
      }
    }
  }

  // The rank whose own cells include cell k.
  lemma {:induction false} RankOf(cfg: Config, k: nat, bound: nat) returns (p: nat)
    requires cfg.Valid() && k < cfg.Lo(bound)
    ensures p < bound && cfg.Lo(p) <= k < cfg.Lo(p) + cfg.ts
  {
    if cfg.Lo(bound - 1) <= k {
      p := bound - 1;
    } else {
      p := RankOf(cfg, k, bound - 1);
    }
  }

  // ---------- the whole run ----------

  // The array once the program stops: rounds are repeated until one of them swaps nothing.
  function Settled(cfg: Config, g: seq<int>): (r: seq<int>)
    requires cfg.Valid() && |g| == cfg.Size()
    ensures |r| == |g|
    decreases Inversions(g)
  {
    RoundConserves(cfg, g);
    if RoundSwaps(cfg, g) == 0 then g else Settled(cfg, Round(cfg, g))
  }

  // How many rounds that takes, the last quiet one included.
  function Rounds(cfg: Config, g: seq<int>): (r: nat)
    requires cfg.Valid() && |g| == cfg.Size()
    decreases Inversions(g)
  {
    RoundConserves(cfg, g);
    if RoundSwaps(cfg, g) == 0 then 1 else 1 + Rounds(cfg, Round(cfg, g))
  }

  // One round of the run.
  lemma SettledStep(cfg: Config, g: seq<int>)
    requires cfg.Valid() && |g| == cfg.Size()
    ensures Inversions(Round(cfg, g)) + RoundSwaps(cfg, g) == Inversions(g)
    ensures RoundSwaps(cfg, g) == 0 ==> Round(cfg, g) == g == Settled(cfg, g) && Rounds(cfg, g) == 1
    ensures RoundSwaps(cfg, g) != 0 ==>
              Settled(cfg, g) == Settled(cfg, Round(cfg, g)) && Rounds(cfg, g) == 1 + Rounds(cfg, Round(cfg, g))
  {
    hide Round, RoundSwaps;
    RoundConserves(cfg, g);
    QuietRound(cfg, g);
  }

  lemma {:induction false} SettledIsStable(cfg: Config, g: seq<int>)
    requires cfg.Valid() && |g| == cfg.Size()
    ensures Stable(cfg, Settled(cfg, g))
    ensures multiset(Settled(cfg, g)) == multiset(g)
    decreases Inversions(g)
  {
    RoundConserves(cfg, g);
    QuietRound(cfg, g);
    if RoundSwaps(cfg, g) != 0 {
      SettledIsStable(cfg, Round(cfg, g));
    }
  }

  // The program stops after at most one round more than the input has inversions.
  lemma {:induction false} RoundsBound(cfg: Config, g: seq<int>)
    requires cfg.Valid() && |g| == cfg.Size()
    ensures Rounds(cfg, g) <= 1 + Inversions(g)
    ensures Rounds(cfg, g) == 1 <==> Stable(cfg, g)
    decreases Inversions(g)
  {
    RoundConserves(cfg, g);
    QuietRound(cfg, g);
    if RoundSwaps(cfg, g) != 0 {
      RoundsBound(cfg, Round(cfg, g));
    }
  }

  // The program sorts every input exactly when neighbouring ranks share a cell.
  lemma SortsExactlyWithOverlap(cfg: Config)
    requires cfg.Valid()
    ensures cfg.c >= 1 <==> forall g: seq<int> :: |g| == cfg.Size() ==> Settled(cfg, g) == Sort(g)
  {
    if cfg.c >= 1 {
      forall g: seq<int> | |g| == cfg.Size() ensures Settled(cfg, g) == Sort(g) {
        SettledIsStable(cfg, g);
        StableIsSorted(cfg, Settled(cfg, g));
        SortUnique(g, Settled(cfg, g));
      }
    } else {
      var g := NotSortedWithoutOverlap(cfg);
      SortIsSortedPermutation(g);
    }
  }

  // Without a shared cell a descending step between two ranks is never seen.
  lemma NotSortedWithoutOverlap(cfg: Config) returns (g: seq<int>)
    requires cfg.Valid() && cfg.c == 0
    ensures |g| == cfg.Size() && Settled(cfg, g) == g && !Sorted(g)
  {
    g := seq(cfg.Size(), k => if k < cfg.ts then 1 else 0);
    forall p | 0 <= p < cfg.np ensures Sorted(Window(cfg, g, p)) {
      WindowFits(cfg, p);
      assert cfg.Lo(1) == cfg.ts;
      if p > 1 { OffsetsGrow(cfg, 1, p); }
    }
    QuietRound(cfg, g);
    WindowFits(cfg, 1);
    assert g[0] == 1 && g[cfg.ts] == 0;
  }
}
