// The private buffers of the ranks of the phase sort (PPD/MPI/T4/maiki.c), and how they
// stand for one global array.
module PhaseRanks {
  import opened SortSpec
  import opened PhaseSpec

  // Every rank declares a buffer for its own values and the shared ones; the last rank
  // leaves the end of its buffer unused.
  ghost predicate Buffers(cfg: Config, b: seq<seq<int>>) {
    |b| == cfg.np && forall p :: 0 <= p < |b| ==> |b[p]| == cfg.ts + cfg.c
  }

  // Cells from..to of the buffer of rank p are up to date with the global array.
  ghost predicate UpToDate(cfg: Config, g: seq<int>, b: seq<seq<int>>, p: nat, from: nat, to: nat)
    requires cfg.Valid() && |g| == cfg.Size() && Buffers(cfg, b) && p < cfg.np && to <= cfg.Width(p)
  {
    WindowFits(cfg, p);
    forall k :: from <= k < to ==> b[p][k] == g[cfg.Lo(p) + k]
  }

  // Every copy of every cell is up to date.
  ghost predicate Coherent(cfg: Config, g: seq<int>, b: seq<seq<int>>)
    requires cfg.Valid() && |g| == cfg.Size() && Buffers(cfg, b)
  {
    forall p :: 0 <= p < cfg.np ==> UpToDate(cfg, g, b, p, 0, cfg.Width(p))
  }

  // After the ranks of one parity have sorted: they are up to date, the others only where
  // they share nothing.
  ghost predicate OwnedBy(cfg: Config, g: seq<int>, b: seq<seq<int>>, parity: nat)
    requires cfg.Valid() && |g| == cfg.Size() && Buffers(cfg, b)
  {
    forall p :: 0 <= p < cfg.np ==> OwnedAt(cfg, g, b, parity, p)
  }

  ghost predicate OwnedAt(cfg: Config, g: seq<int>, b: seq<seq<int>>, parity: nat, p: nat)
    requires cfg.Valid() && |g| == cfg.Size() && Buffers(cfg, b) && p < cfg.np
  {
    if p % 2 == parity then UpToDate(cfg, g, b, p, 0, cfg.Width(p))
    else UpToDate(cfg, g, b, p, if p == 0 then 0 else cfg.c, cfg.ts)
  }

  // The buffer of rank p after its bubble sort.
  function SortedCopy(cfg: Config, buf: seq<int>, p: nat): (r: seq<int>)
    requires p < cfg.np && |buf| == cfg.ts + cfg.c
    ensures |r| == |buf|
  {
    Sort(buf[..cfg.Width(p)]) + buf[cfg.Width(p)..]
  }

  // The ranks of one parity sort.
  function SortPhase(cfg: Config, b: seq<seq<int>>, parity: nat): (r: seq<seq<int>>)
    requires Buffers(cfg, b)
    ensures Buffers(cfg, r)
  {
    seq(cfg.np, p requires 0 <= p < cfg.np => if p % 2 == parity then SortedCopy(cfg, b[p], p) else b[p])
  }

  // What rank p holds once its neighbours have sent it the values they share with it.
  function Received(cfg: Config, b: seq<seq<int>>, p: nat): (r: seq<int>)
    requires Buffers(cfg, b) && p < cfg.np && cfg.c <= cfg.ts
    ensures |r| == cfg.ts + cfg.c
  {
    (if p == 0 then b[p][..cfg.c] else b[p - 1][cfg.ts..]) + b[p][cfg.c..cfg.ts]
    + (if p + 1 == cfg.np then b[p][cfg.ts..] else b[p + 1][..cfg.c])
  }

  // The ranks of one parity send, the others receive.
  function HandOver(cfg: Config, b: seq<seq<int>>, parity: nat): (r: seq<seq<int>>)
    requires Buffers(cfg, b) && cfg.c <= cfg.ts
    ensures Buffers(cfg, r)
  {
    seq(cfg.np, p requires 0 <= p < cfg.np => if p % 2 == parity then b[p] else Received(cfg, b, p))
  }

  // The same phase, one rank after the other: p, p + 2, p + 4, ...
  function SortFrom(cfg: Config, b: seq<seq<int>>, p: nat): (r: seq<seq<int>>)
    requires Buffers(cfg, b)
    ensures Buffers(cfg, r)
    decreases cfg.np - p
  {
    if p >= cfg.np then b else SortFrom(cfg, b[p := SortedCopy(cfg, b[p], p)], p + 2)
  }

  lemma {:induction false} SortFromAt(cfg: Config, b: seq<seq<int>>, p: nat, q: nat)
    requires Buffers(cfg, b) && q < cfg.np
    ensures SortFrom(cfg, b, p)[q] == if p <= q && (q - p) % 2 == 0 then SortedCopy(cfg, b[q], q) else b[q]
    decreases cfg.np - p
  {
    hide SortedCopy;
    if p < cfg.np {
      SortFromAt(cfg, b[p := SortedCopy(cfg, b[p], p)], p + 2, q);
    }
  }

  lemma SortFromIsSortPhase(cfg: Config, b: seq<seq<int>>, parity: nat)
    requires Buffers(cfg, b) && parity < 2
    ensures SortFrom(cfg, b, parity) == SortPhase(cfg, b, parity)
  {
    hide SortedCopy;
    forall q | 0 <= q < cfg.np ensures SortFrom(cfg, b, parity)[q] == SortPhase(cfg, b, parity)[q] {
      SortFromAt(cfg, b, parity, q);
    }
  }

  // The variables sorted of the ranks p, p + 2, p + 4, ... once these ranks have sorted.
  function FlagsFrom(cfg: Config, b: seq<seq<int>>, flags: seq<int>, p: nat): (r: seq<int>)
    requires Buffers(cfg, b) && |flags| == cfg.np
    ensures |r| == cfg.np
    decreases cfg.np - p
  {
    if p >= cfg.np then flags else FlagsFrom(cfg, b, flags[p := Flag(cfg, b, p)], p + 2)
  }

  // 1 when rank p finds its values in order, 0 when it has to swap.
  function Flag(cfg: Config, b: seq<seq<int>>, p: nat): int
    requires Buffers(cfg, b) && p < cfg.np
  {
    if Inversions(b[p][..cfg.Width(p)]) == 0 then 1 else 0
  }

  lemma {:induction false} FlagsFromAt(cfg: Config, b: seq<seq<int>>, flags: seq<int>, p: nat, q: nat)
    requires Buffers(cfg, b) && |flags| == cfg.np && q < cfg.np
    ensures FlagsFrom(cfg, b, flags, p)[q] == if p <= q && (q - p) % 2 == 0 then Flag(cfg, b, q) else flags[q]
    decreases cfg.np - p
  {
    hide Flag;
    if p < cfg.np {
      FlagsFromAt(cfg, b, flags[p := Flag(cfg, b, p)], p + 2, q);
    }
  }

  // The hand-over, one receiver after the other: p, p + 2, p + 4, ...
  function ReceiveFrom(cfg: Config, b: seq<seq<int>>, p: nat): (r: seq<seq<int>>)
    requires Buffers(cfg, b) && cfg.c <= cfg.ts
    ensures Buffers(cfg, r)
    decreases cfg.np - p
  {
    if p >= cfg.np then b else ReceiveFrom(cfg, b[p := Received(cfg, b, p)], p + 2)
  }

  lemma {:induction false} ReceiveFromAt(cfg: Config, b: seq<seq<int>>, p: nat, q: nat)
    requires Buffers(cfg, b) && q < cfg.np && cfg.c <= cfg.ts
    ensures ReceiveFrom(cfg, b, p)[q] == if p <= q && (q - p) % 2 == 0 then Received(cfg, b, q) else b[q]
    decreases cfg.np - p
  {
    hide Received;
    if p < cfg.np {
      var d := b[p := Received(cfg, b, p)];
      ReceiveFromAt(cfg, d, p + 2, q);
      if p < q && (q - p) % 2 == 0 {
        assert Received(cfg, d, q) == Received(cfg, b, q) by { ReceivedReadsNeighbours(cfg, b, d, q); }
      }
    }
  }

  lemma ReceivedReadsNeighbours(cfg: Config, b: seq<seq<int>>, d: seq<seq<int>>, q: nat)
    requires Buffers(cfg, b) && Buffers(cfg, d) && q < cfg.np && cfg.c <= cfg.ts
    requires b[q] == d[q] && (q > 0 ==> b[q - 1] == d[q - 1]) && (q + 1 < cfg.np ==> b[q + 1] == d[q + 1])
    ensures Received(cfg, b, q) == Received(cfg, d, q)
  {
  }

  lemma ReceiveFromIsHandOver(cfg: Config, b: seq<seq<int>>, parity: nat)
    requires Buffers(cfg, b) && cfg.c <= cfg.ts && parity < 2
    ensures ReceiveFrom(cfg, b, 1 - parity) == HandOver(cfg, b, parity)
  {
    hide Received;
    forall q | 0 <= q < cfg.np ensures ReceiveFrom(cfg, b, 1 - parity)[q] == HandOver(cfg, b, parity)[q] {
      ReceiveFromAt(cfg, b, 1 - parity, q);
    }
  }

  // Sorting the private copies of one parity is sorting the windows of one global array.
  lemma SortPhaseRefines(cfg: Config, g: seq<int>, b: seq<seq<int>>, parity: nat)
    requires cfg.Valid() && |g| == cfg.Size() && Buffers(cfg, b) && parity < 2
    requires Coherent(cfg, g, b)
    ensures OwnedBy(cfg, SortWindows(cfg, g, parity), SortPhase(cfg, b, parity), parity)
  {
    hide SortWindows, SortedCopy;
    var h, d := SortWindows(cfg, g, parity), SortPhase(cfg, b, parity);
    forall p | 0 <= p < cfg.np ensures OwnedAt(cfg, h, d, parity, p) {
      WindowFits(cfg, p);
      assert UpToDate(cfg, g, b, p, 0, cfg.Width(p));
      if p % 2 == parity {
        CopyIsWindow(cfg, g, b, p);
        SortingRankIsUpToDate(cfg, g, b, p, parity);
      } else {
        IdleRankKeepsItsCore(cfg, g, p, parity);
        forall k | (if p == 0 then 0 else cfg.c) <= k < cfg.ts ensures d[p][k] == h[cfg.Lo(p) + k] {
          assert b[p][k] == g[cfg.Lo(p) + k];
        }
      }
    }
  }

  lemma SortingRankIsUpToDate(cfg: Config, g: seq<int>, b: seq<seq<int>>, p: nat, parity: nat)
    requires cfg.Valid() && |g| == cfg.Size() && Buffers(cfg, b) && p < cfg.np && p % 2 == parity
    requires b[p][..cfg.Width(p)] == Window(cfg, g, p)
    ensures UpToDate(cfg, SortWindows(cfg, g, parity), SortPhase(cfg, b, parity), p, 0, cfg.Width(p))
  {
    hide SortWindows, Sort;
    WindowFits(cfg, p);
    WindowGetsSorted(cfg, g, parity, p);
    var h, d := SortWindows(cfg, g, parity), SortPhase(cfg, b, parity);
    assert d[p] == Window(cfg, h, p) + b[p][cfg.Width(p)..];
    SliceCells(h, cfg.Lo(p), cfg.Width(p), d[p], b[p][cfg.Width(p)..]);
    hide SortPhase;
  }

  lemma SliceCells(h: seq<int>, lo: nat, n: nat, d: seq<int>, rest: seq<int>)
    requires lo + n <= |h| && d == h[lo..lo + n] + rest
    ensures forall k :: 0 <= k < n ==> d[k] == h[lo + k]
  {}

  lemma IdleRankKeepsItsCore(cfg: Config, g: seq<int>, p: nat, parity: nat)
    requires cfg.Valid() && |g| == cfg.Size() && p < cfg.np && p % 2 != parity && parity < 2
    ensures cfg.Lo(p) + cfg.ts <= |g|
    ensures forall k :: cfg.Lo(p) + (if p == 0 then 0 else cfg.c) <= k < cfg.Lo(p) + cfg.ts ==>
              SortWindows(cfg, g, parity)[k] == g[k]
  {
    hide SortWindows;
    WindowFits(cfg, p);
    forall k | cfg.Lo(p) + (if p == 0 then 0 else cfg.c) <= k < cfg.Lo(p) + cfg.ts
      ensures SortWindows(cfg, g, parity)[k] == g[k]
    {
      if p == 0 {
        CellBefore(cfg, g, 1, k);
      } else {
        WindowFits(cfg, p - 1);
        CellBetween(cfg, g, parity, p - 1, k);
      }
    }
  }

  // After the hand-over every copy is up to date again.
  lemma HandOverRestoresCoherence(cfg: Config, g: seq<int>, b: seq<seq<int>>, parity: nat)
    requires cfg.Valid() && |g| == cfg.Size() && Buffers(cfg, b) && parity < 2
    requires OwnedBy(cfg, g, b, parity)
    ensures Coherent(cfg, g, HandOver(cfg, b, parity))
  {
    var d := HandOver(cfg, b, parity);
    forall p | 0 <= p < cfg.np ensures UpToDate(cfg, g, d, p, 0, cfg.Width(p)) {
      if p % 2 == parity {
        assert OwnedAt(cfg, g, b, parity, p);
      } else {
        ReceiverIsUpToDate(cfg, g, b, p, parity);
      }
    }
  }

  lemma ReceiverIsUpToDate(cfg: Config, g: seq<int>, b: seq<seq<int>>, p: nat, parity: nat)
    requires cfg.Valid() && |g| == cfg.Size() && Buffers(cfg, b) && p < cfg.np && p % 2 != parity && parity < 2
    requires OwnedBy(cfg, g, b, parity)
    ensures UpToDate(cfg, g, HandOver(cfg, b, parity), p, 0, cfg.Width(p))
  {
    WindowFits(cfg, p);
    var r := Received(cfg, b, p);
    assert OwnedAt(cfg, g, b, parity, p);
    forall k | 0 <= k < cfg.Width(p) ensures r[k] == g[cfg.Lo(p) + k] {
      if p > 0 && k < cfg.c {
        assert OwnedAt(cfg, g, b, parity, p - 1);
        assert r[k] == b[p - 1][cfg.ts + k];
      } else if k < cfg.ts {
        assert r[k] == b[p][k];
      } else {
        assert OwnedAt(cfg, g, b, parity, p + 1);
        assert r[k] == b[p + 1][k - cfg.ts];
      }
    }
  }

  // In a coherent state neighbours agree on the cells they share.
  lemma NeighboursAgree(cfg: Config, g: seq<int>, b: seq<seq<int>>, p: nat)
    requires cfg.Valid() && |g| == cfg.Size() && Buffers(cfg, b) && Coherent(cfg, g, b) && p + 1 < cfg.np
    ensures b[p][cfg.ts..] == b[p + 1][..cfg.c]
  {
    WindowFits(cfg, p);
    assert UpToDate(cfg, g, b, p, 0, cfg.Width(p)) && UpToDate(cfg, g, b, p + 1, 0, cfg.Width(p + 1));
    forall k | 0 <= k < cfg.c ensures b[p][cfg.ts..][k] == b[p + 1][..cfg.c][k] {
      assert b[p][cfg.ts + k] == g[cfg.Lo(p) + (cfg.ts + k)];
    }
  }

  // The exchanges that the ranks p, p + 2, p + 4, ... make while they sort.
  function PhaseSwaps(cfg: Config, b: seq<seq<int>>, p: nat): nat
    requires Buffers(cfg, b)
    decreases cfg.np - p
  {
    if p >= cfg.np then 0 else Inversions(b[p][..cfg.Width(p)]) + PhaseSwaps(cfg, b, p + 2)
  }

  lemma {:induction false} PhaseSwapsAreWindowInversions(cfg: Config, g: seq<int>, b: seq<seq<int>>, p: nat)
    requires cfg.Valid() && |g| == cfg.Size() && Buffers(cfg, b) && Coherent(cfg, g, b)
    ensures PhaseSwaps(cfg, b, p) == WindowInversions(cfg, g, p)
    decreases cfg.np - p
  {
    if p < cfg.np {
      CopyIsWindow(cfg, g, b, p);
      PhaseSwapsAreWindowInversions(cfg, g, b, p + 2);
    }
  }

  lemma CopyIsWindow(cfg: Config, g: seq<int>, b: seq<seq<int>>, p: nat)
    requires cfg.Valid() && |g| == cfg.Size() && Buffers(cfg, b) && Coherent(cfg, g, b) && p < cfg.np
    ensures b[p][..cfg.Width(p)] == Window(cfg, g, p)
  {
    WindowFits(cfg, p);
    assert UpToDate(cfg, g, b, p, 0, cfg.Width(p));
  }

  // What the ranks print, one after the other.
  function Printed(cfg: Config, b: seq<seq<int>>, p: nat): (r: seq<int>)
    requires Buffers(cfg, b) && p <= cfg.np
    ensures |r| == cfg.Lo(p)
  {
    if p == 0 then [] else Printed(cfg, b, p - 1) + b[p - 1][..cfg.ts]
  }

  // The cells rank p owns, in its buffer and in the array.
  lemma OwnCells(cfg: Config, g: seq<int>, b: seq<seq<int>>, p: nat)
    requires cfg.Valid() && |g| == cfg.Size() && Buffers(cfg, b) && Coherent(cfg, g, b) && p < cfg.np
    ensures cfg.Lo(p + 1) == cfg.Lo(p) + cfg.ts <= |g|
    ensures b[p][..cfg.ts] == g[cfg.Lo(p)..cfg.Lo(p) + cfg.ts]
  {
    WindowFits(cfg, p);
    CopyIsWindow(cfg, g, b, p);
    var w := cfg.Width(p);
    assert cfg.ts <= w && cfg.Lo(p) + w <= |g|;
    hide Coherent;
    FrontOfSlice(g, b[p], cfg.Lo(p), w, cfg.ts);
  }

  lemma FrontOfSlice(g: seq<int>, own: seq<int>, lo: nat, w: nat, n: nat)
    requires n <= w <= |own| && lo + w <= |g| && own[..w] == g[lo..lo + w]
    ensures own[..n] == g[lo..lo + n]
  {
    assert own[..n] == own[..w][..n];
  }

  lemma {:induction false} PrintedIsTheArray(cfg: Config, g: seq<int>, b: seq<seq<int>>, p: nat)
    requires cfg.Valid() && |g| == cfg.Size() && Buffers(cfg, b) && Coherent(cfg, g, b) && p <= cfg.np
    ensures cfg.Lo(p) <= |g| && Printed(cfg, b, p) == g[..cfg.Lo(p)]
  {
    if p > 0 {
      PrintedIsTheArray(cfg, g, b, p - 1);
      OwnCells(cfg, g, b, p - 1);
      hide Coherent;
      assert g[..cfg.Lo(p)] == g[..cfg.Lo(p - 1)] + g[cfg.Lo(p - 1)..cfg.Lo(p)];
    }
  }

  // Only the ranks from p on matter to what is left of a phase.
  lemma {:induction false} EarlierRanksDoNotMatter(cfg: Config, b: seq<seq<int>>, d: seq<seq<int>>, flags: seq<int>, p: nat)
    requires Buffers(cfg, b) && Buffers(cfg, d) && |flags| == cfg.np
    requires forall q :: p <= q < cfg.np ==> b[q] == d[q]
    ensures FlagsFrom(cfg, b, flags, p) == FlagsFrom(cfg, d, flags, p)
    ensures PhaseSwaps(cfg, b, p) == PhaseSwaps(cfg, d, p)
    decreases cfg.np - p
  {
    if p < cfg.np {
      EarlierRanksDoNotMatter(cfg, b, d, flags[p := Flag(cfg, b, p)], p + 2);
    }
  }

  lemma WindowsAreCoherent(cfg: Config, g: seq<int>, b: seq<seq<int>>)
    requires cfg.Valid() && |g| == cfg.Size() && Buffers(cfg, b)
    requires forall p :: 0 <= p < cfg.np ==> b[p][..cfg.Width(p)] == Window(cfg, g, p)
    ensures Coherent(cfg, g, b)
  {
    forall p | 0 <= p < cfg.np ensures UpToDate(cfg, g, b, p, 0, cfg.Width(p)) {
      WindowFits(cfg, p);
      forall k | 0 <= k < cfg.Width(p) ensures b[p][k] == g[cfg.Lo(p) + k] {
        assert b[p][k] == b[p][..cfg.Width(p)][k];
      }
    }
  }

  // The ranks p, p + 2, p + 4, ... have nothing to swap.
  ghost predicate AllFlagged(cfg: Config, b: seq<seq<int>>, p: nat)
    requires Buffers(cfg, b)
    decreases cfg.np - p
  {
    p < cfg.np ==> Flag(cfg, b, p) == 1 && AllFlagged(cfg, b, p + 2)
  }

  lemma {:induction false} FlagsInterleave(cfg: Config, b: seq<seq<int>>, d: seq<seq<int>>, flags: seq<int>, p: nat)
    requires Buffers(cfg, b) && Buffers(cfg, d) && |flags| == cfg.np && p % 2 == 0
    requires forall q :: 0 <= q < cfg.np ==> flags[q] == if q % 2 == 0 then Flag(cfg, b, q) else Flag(cfg, d, q)
    ensures AllFlagged(cfg, b, p) && AllFlagged(cfg, d, p + 1) <==> forall q :: p <= q < cfg.np ==> flags[q] == 1
    decreases cfg.np - p
  {
    hide Flag;
    if p < cfg.np {
      FlagsInterleave(cfg, b, d, flags, p + 2);
    }
  }

  // A phase swaps nothing exactly when all its flags are 1, and then it changes nothing.
  lemma {:induction false} QuietPhase(cfg: Config, b: seq<seq<int>>, p: nat)
    requires Buffers(cfg, b)
    ensures PhaseSwaps(cfg, b, p) == 0
       <==> AllFlagged(cfg, b, p)
    ensures PhaseSwaps(cfg, b, p) == 0 ==> SortFrom(cfg, b, p) == b
    decreases cfg.np - p
  {
    hide Inversions, Sort;
    if p < cfg.np {
      QuietPhase(cfg, b, p + 2);
      SortedIffNoInversions(b[p][..cfg.Width(p)]);
      SortFixesExactlySorted(b[p][..cfg.Width(p)]);
      assert b[p] == b[p][..cfg.Width(p)] + b[p][cfg.Width(p)..];
      if PhaseSwaps(cfg, b, p) == 0 {
        assert b[p := SortedCopy(cfg, b[p], p)] == b;
      }
    }
  }

  // After both phases of a round all flags are 1 exactly when neither phase swapped.
  lemma AllFlagsSet(cfg: Config, b: seq<seq<int>>, d: seq<seq<int>>, flags: seq<int>)
    requires Buffers(cfg, b) && Buffers(cfg, d) && |flags| == cfg.np
    ensures forall q :: 0 <= q < cfg.np ==> 0 <= FlagsFrom(cfg, d, FlagsFrom(cfg, b, flags, 0), 1)[q] <= 1
    ensures (forall q :: 0 <= q < cfg.np ==> FlagsFrom(cfg, d, FlagsFrom(cfg, b, flags, 0), 1)[q] == 1)
       <==> PhaseSwaps(cfg, b, 0) == 0 && PhaseSwaps(cfg, d, 1) == 0
  {
    hide FlagsFrom, Flag, Buffers, PhaseSwaps, AllFlagged, SortFrom;
    var late := FlagsFrom(cfg, d, FlagsFrom(cfg, b, flags, 0), 1);
    forall q | 0 <= q < cfg.np
      ensures late[q] == if q % 2 == 0 then Flag(cfg, b, q) else Flag(cfg, d, q)
      ensures 0 <= late[q] <= 1
    {
      LateFlag(cfg, b, d, flags, q);
    }
    FlagsInterleave(cfg, b, d, late, 0);
    QuietPhase(cfg, b, 0);
    QuietPhase(cfg, d, 1);
  }

  // The flag of rank q once both phases are over.
  lemma LateFlag(cfg: Config, b: seq<seq<int>>, d: seq<seq<int>>, flags: seq<int>, q: nat)
    requires Buffers(cfg, b) && Buffers(cfg, d) && |flags| == cfg.np && q < cfg.np
    ensures var late := FlagsFrom(cfg, d, FlagsFrom(cfg, b, flags, 0), 1);
      late[q] == (if q % 2 == 0 then Flag(cfg, b, q) else Flag(cfg, d, q)) && 0 <= late[q] <= 1
  {
    hide FlagsFrom, Flag, Buffers;
    FlagsFromAt(cfg, b, flags, 0, q);
    FlagsFromAt(cfg, d, FlagsFrom(cfg, b, flags, 0), 1, q);
    FlagIsBit(cfg, b, q);
    FlagIsBit(cfg, d, q);
  }

  lemma FlagIsBit(cfg: Config, b: seq<seq<int>>, p: nat)
    requires Buffers(cfg, b) && p < cfg.np
    ensures 0 <= Flag(cfg, b, p) <= 1
  {
  }

  // A turn in which nobody swaps leaves every buffer as it was.
  lemma QuietTurn(cfg: Config, g: seq<int>, b: seq<seq<int>>)
    requires cfg.Valid() && |g| == cfg.Size() && Buffers(cfg, b) && Coherent(cfg, g, b)
    requires RoundSwaps(cfg, g) == 0
    ensures SortPhase(cfg, HandOver(cfg, SortPhase(cfg, b, 0), 0), 1) == b
    ensures Round(cfg, g) == g
  {
    QuietRound(cfg, g);
    PhaseSwapsAreWindowInversions(cfg, g, b, 0);
    QuietPhase(cfg, b, 0);
    SortFromIsSortPhase(cfg, b, 0);
    HandOverOfCoherentBuffers(cfg, g, b, 0);
    NothingToSort(cfg, g, 0);
    PhaseSwapsAreWindowInversions(cfg, g, b, 1);
    QuietPhase(cfg, b, 1);
    SortFromIsSortPhase(cfg, b, 1);
  }

  // Handing over what the receivers have already changes nothing.
  lemma HandOverOfCoherentBuffers(cfg: Config, g: seq<int>, b: seq<seq<int>>, parity: nat)
    requires cfg.Valid() && |g| == cfg.Size() && Buffers(cfg, b) && Coherent(cfg, g, b)
    ensures HandOver(cfg, b, parity) == b
  {
    forall p | 0 <= p < cfg.np ensures Received(cfg, b, p) == b[p] {
      if p > 0 { NeighboursAgree(cfg, g, b, p - 1); }
      if p + 1 < cfg.np { NeighboursAgree(cfg, g, b, p); }
      assert b[p] == b[p][..cfg.c] + b[p][cfg.c..cfg.ts] + b[p][cfg.ts..];
    }
  }
}
