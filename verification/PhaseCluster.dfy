// The phase-parallel program itself (PPD/MPI/T4/maiki.c, main): np processes with one
// private buffer each. Between two barriers every process touches only its own buffer,
// so a phase handles the ranks of its parity one after the other.
module PhaseCluster {
  import opened SortSpec
  import opened PhaseSpec
  import opened PhaseRanks
  import B = BubbleSort

  class Cluster {
    const cfg: Config
    const buffer: seq<array<int>>
    // The variable sorted of every rank.
    var sorted: seq<int>
    // The contents of the buffers.
    ghost var copies: seq<seq<int>>

    ghost predicate Valid()
      reads this, buffer
    {
      && cfg.Valid()
      && |buffer| == |sorted| == cfg.np
      && Buffers(cfg, copies)
      && (forall p :: 0 <= p < cfg.np ==> buffer[p][..] == copies[p])
      && (forall p, q :: 0 <= p < q < cfg.np ==> buffer[p] != buffer[q])
    }

    // Distributes the input: every rank gets its own values and the shared ones.
    constructor (cfg: Config, input: seq<int>)
      requires cfg.Valid() && |input| == cfg.Size()
      ensures Valid() && fresh(buffer) && this.cfg == cfg
      ensures Coherent(cfg, input, copies)
    {
      var bs: seq<array<int>> := [];
      ghost var cs: seq<seq<int>> := [];
      for p := 0 to cfg.np
        invariant |bs| == |cs| == p
        invariant forall q :: 0 <= q < p ==> fresh(bs[q]) && bs[q][..] == cs[q]
        invariant forall q, r :: 0 <= q < r < p ==> bs[q] != bs[r]
        invariant forall q :: 0 <= q < p ==> |cs[q]| == cfg.ts + cfg.c && cs[q][..cfg.Width(q)] == Window(cfg, input, q)
      {
        WindowFits(cfg, p);
        var b := FilledBuffer(cfg.ts + cfg.c, input[cfg.Lo(p)..cfg.Hi(p)]);
        bs, cs := bs + [b], cs + [b[..]];
      }
      this.cfg, buffer, copies := cfg, bs, cs;
      sorted := seq(cfg.np, _ => 0);
      new;
      WindowsAreCoherent(cfg, input, copies);
    }

    // A new buffer whose first cells hold the received values.
    static method FilledBuffer(length: nat, values: seq<int>) returns (b: array<int>)
      requires |values| <= length
      ensures fresh(b) && b.Length == length && b[..|values|] == values
    {
      b := new int[length];
      for k := 0 to |values|
        invariant b[..k] == values[..k]
      {
        b[k] := values[k];
      }
    }

    // Every rank of the parity runs its bubble sort.
    method Sort(parity: nat) returns (ghost swaps: nat)
      requires Valid() && parity < 2
      modifies this, buffer
      ensures Valid() && copies == SortPhase(cfg, old(copies), parity)
      ensures sorted == FlagsFrom(cfg, old(copies), old(sorted), parity)
      ensures swaps == PhaseSwaps(cfg, old(copies), parity)
    {
      var p := parity;
      swaps := 0;
      while p < cfg.np
        invariant Valid()
        invariant SortFrom(cfg, copies, p) == SortFrom(cfg, old(copies), parity)
        invariant FlagsFrom(cfg, copies, sorted, p) == FlagsFrom(cfg, old(copies), old(sorted), parity)
        invariant swaps + PhaseSwaps(cfg, copies, p) == PhaseSwaps(cfg, old(copies), parity)
        decreases cfg.np - p
      {
        ghost var was, flags := copies, sorted;
        ghost var exchanged := SortRank(p);
        EarlierRanksDoNotMatter(cfg, was, copies, sorted, p + 2);
        swaps := swaps + exchanged;
        p := p + 2;
      }
      SortFromIsSortPhase(cfg, old(copies), parity);
    }

    // The bubble sort of one rank.
    method SortRank(p: nat) returns (ghost swaps: nat)
      requires Valid() && p < cfg.np
      modifies this, buffer[p]
      ensures Valid() && copies == old(copies)[p := SortedCopy(cfg, old(copies)[p], p)]
      ensures sorted == old(sorted)[p := Flag(cfg, old(copies), p)]
      ensures swaps == Inversions(old(copies)[p][..cfg.Width(p)])
    {
      hide SortSpec.Sort, SortSpec.Inversions;
      ghost var was := copies[p];
      var w := cfg.Width(p);
      assert buffer[p][..w] == was[..w] && buffer[p][w..] == was[w..];
      var flag;
      ghost var passes;
      flag, swaps, passes := B.BubbleSort(buffer[p], w - 1);
      SortedIffNoInversions(was[..w]);
      assert buffer[p][..] == buffer[p][..w] + buffer[p][w..];
      sorted := sorted[p := flag];
      copies := copies[p := SortedCopy(cfg, was, p)];
    }

    // Every rank of the parity sends its shared cells; the others receive them.
    method Exchange(parity: nat)
      requires Valid() && parity < 2
      modifies this`copies, buffer
      ensures Valid() && copies == HandOver(cfg, old(copies), parity)
    {
      var p := 1 - parity;
      while p < cfg.np
        invariant Valid()
        invariant ReceiveFrom(cfg, copies, p) == ReceiveFrom(cfg, old(copies), 1 - parity)
        decreases cfg.np - p
      {
        ReceiveShared(p);
        p := p + 2;
      }
      ReceiveFromIsHandOver(cfg, old(copies), parity);
    }

    // Rank p receives the shared cells from both neighbours.
    method ReceiveShared(p: nat)
      requires Valid() && p < cfg.np
      modifies this`copies, buffer[p]
      ensures Valid() && copies == old(copies)[p := Received(cfg, old(copies), p)]
    {
      hide Received;
      ghost var was := copies;
      var own := buffer[p];
      assert own[..] == was[p];
      if p + 1 < cfg.np {
        assert buffer[p + 1][..] == was[p + 1];
        FromNext(own, buffer[p + 1], cfg.ts, cfg.c);
      }
      ghost var half := own[..];
      if p > 0 {
        assert buffer[p - 1][..] == was[p - 1];
        FromPrevious(own, buffer[p - 1], cfg.ts, cfg.c);
      }
      ReceivedByHalves(cfg, was, p, half, own[..]);
      copies := copies[p := own[..]];
    }

    // The right neighbour's first cells land in the shared cells on the right.
    static method FromNext(own: array<int>, next: array<int>, ts: nat, c: nat)
      requires own != next && own.Length == next.Length == ts + c
      modifies own
      ensures own[..] == old(own[..ts]) + next[..c]
    {
      Transfer(next, 0, own, ts, c);
    }

    // And the left neighbour's last ones in those on the left.
    static method FromPrevious(own: array<int>, previous: array<int>, ts: nat, c: nat)
      requires own != previous && own.Length == previous.Length == ts + c
      modifies own
      ensures own[..] == previous[ts..] + old(own[c..])
    {
      Transfer(previous, ts, own, 0, c);
    }

    // The right shared cells first, then the left ones.
    static lemma ReceivedByHalves(cfg: Config, was: seq<seq<int>>, p: nat, half: seq<int>, now: seq<int>)
      requires cfg.Valid() && Buffers(cfg, was) && p < cfg.np
      requires half == was[p][..cfg.ts] + (if p + 1 == cfg.np then was[p][cfg.ts..] else was[p + 1][..cfg.c])
      requires now == if p > 0 then was[p - 1][cfg.ts..] + half[cfg.c..] else half
      ensures now == Received(cfg, was, p)
    {
      var right := if p + 1 == cfg.np then was[p][cfg.ts..] else was[p + 1][..cfg.c];
      SplitFront(was[p], cfg.c, cfg.ts, right);
      hide Buffers;
    }

    static lemma SplitFront(own: seq<int>, c: nat, ts: nat, right: seq<int>)
      requires c <= ts <= |own|
      ensures (own[..ts] + right)[c..] == own[c..ts] + right
      ensures own[..ts] + right == own[..c] + own[c..ts] + right
    {
      assert own[..ts] == own[..c] + own[c..ts];
    }

    // A message of count values, from one buffer to another.
    static method Transfer(source: array<int>, from: nat, target: array<int>, to: nat, count: nat)
      requires source != target && from + count <= source.Length && to + count <= target.Length
      modifies target
      ensures target[..] == old(target[..to]) + old(source[from..from + count]) + old(target[to + count..])
    {
      ghost var was := target[..];
      for k := 0 to count
        invariant forall i :: 0 <= i < target.Length ==>
                    target[i] == if to <= i < to + k then source[from + i - to] else was[i]
      {
        target[to + k] := source[from + k];
      }
    }

    // The all-reduce: the sum of the variables sorted of all ranks.
    method AllReduce() returns (result: int)
      requires |sorted| == cfg.np
      requires forall p :: 0 <= p < cfg.np ==> 0 <= sorted[p] <= 1
      ensures result == cfg.np <==> forall p :: 0 <= p < cfg.np ==> sorted[p] == 1
    {
      result := 0;
      for p := 0 to cfg.np
        invariant 0 <= result <= p
        invariant result == p <==> forall q :: 0 <= q < p ==> sorted[q] == 1
      {
        result := result + sorted[p];
      }
    }
  
    // One turn of the loop of every rank, up to its all-reduce; the hand-over to the even
    // ranks follows only if somebody swapped.
    method Turn(ghost g: seq<int>) returns (done: bool, ghost swaps: nat)
      requires Valid() && |g| == cfg.Size() && Coherent(cfg, g, copies)
      modifies this, buffer
      ensures Valid()
      ensures swaps == RoundSwaps(cfg, g)
      ensures done <==> swaps == 0
      ensures done ==> copies == old(copies)
      ensures Coherent(cfg, PhaseSpec.Round(cfg, g), copies)
    {
      hide SortWindows, SortPhase, HandOver, PhaseSwaps, FlagsFrom, WindowInversions, Coherent, OwnedBy;
      ghost var b, h := copies, SortWindows(cfg, g, 0);
      PhaseSwapsAreWindowInversions(cfg, g, b, 0);
      SortPhaseRefines(cfg, g, b, 0);
      ghost var evenSwaps := Sort(0);
      HandOverRestoresCoherence(cfg, h, copies, 0);
      Exchange(0);
      ghost var d := copies;
      PhaseSwapsAreWindowInversions(cfg, h, d, 1);
      SortPhaseRefines(cfg, h, d, 1);
      ghost var flags := old(sorted);
      ghost var oddSwaps := Sort(1);
      swaps := evenSwaps + oddSwaps;
      AllFlagsSet(cfg, b, d, flags);
      var result := AllReduce();
      done := result == cfg.np;
      if done {
        QuietTurn(cfg, g, b);
      } else {
        HandOverRestoresCoherence(cfg, PhaseSpec.Round(cfg, g), copies, 1);
        Exchange(1);
      }
    }

    // The program: turns until a quiet one, then every rank prints its own values.
    method Run(ghost input: seq<int>) returns (output: seq<int>, rounds: nat, ghost swaps: nat)
      requires Valid() && |input| == cfg.Size() && Coherent(cfg, input, copies)
      modifies this, buffer
      ensures output == Settled(cfg, input)
      ensures rounds == Rounds(cfg, input) <= 1 + Inversions(input)
      ensures swaps + Inversions(output) == Inversions(input)
      ensures cfg.c >= 1 ==> output == SortSpec.Sort(input)
    {
      hide Inversions, Coherent, Settled, Rounds, RoundSwaps, PhaseSpec.Round, Printed;
      ghost var g := input;
      var done := false;
      rounds, swaps := 0, 0;
      while !done
        invariant Valid() && |g| == cfg.Size() && Coherent(cfg, g, copies)
        invariant swaps + Inversions(g) == Inversions(input)
        invariant Settled(cfg, g) == Settled(cfg, input)
        invariant if done then g == Settled(cfg, g) && rounds == Rounds(cfg, input)
                  else rounds + Rounds(cfg, g) == Rounds(cfg, input)
        decreases if done then 0 else 1 + Inversions(g)
      {
        SettledStep(cfg, g);
        ghost var turnSwaps;
        done, turnSwaps := Turn(g);
        swaps, rounds := swaps + turnSwaps, rounds + 1;
        g := PhaseSpec.Round(cfg, g);
      }
      RoundsBound(cfg, input);
      PrintedIsTheArray(cfg, g, copies, cfg.np);
      output := Print();
      if cfg.c >= 1 {
        SortsExactlyWithOverlap(cfg);
      }
    }

    // Every rank prints its own values, in rank order.
    method Print() returns (output: seq<int>)
      requires Valid()
      ensures output == Printed(cfg, copies, cfg.np)
    {
      output := [];
      for p := 0 to cfg.np
        invariant output == Printed(cfg, copies, p)
      {
        assert buffer[p][..cfg.ts] == copies[p][..cfg.ts];
        output := output + buffer[p][..cfg.ts];
      }
    }
  }
}
