// The binomial tree of the divide-and-conquer sort (PPD/MPI/T3/dc.c): which rank works at
// which level, and which block of the input it gets.
module BinomialTree {
  import opened SortSpec

  function Pow2(l: nat): (r: nat)
    ensures r >= 1
  {
    if l == 0 then 1 else 2 * Pow2(l - 1)
  }

  // 2^k ranks; ts values for each of them.
  datatype Config = Config(k: nat, ts: nat, input: seq<int>) {
    ghost predicate Valid() {
      ts >= 1 && |input| == Share(0)
    }

    function Ranks(): nat {
      Pow2(k)
    }

    // How many values a rank holds at level l.
    function Share(l: nat): nat
      decreases k - l
    {
      if l >= k then ts else 2 * Share(l + 1)
    }

    // The input block of rank r at level l: the lower half of a block stays, the upper
    // half goes to the rank 2^l further.
    function Block(r: nat, l: nat): (b: seq<int>)
      requires Valid() && l <= k && r < Pow2(l)
      ensures |b| == Share(l)
      decreases l
    {
      if l == 0 then input
      else if r < Pow2(l - 1) then Block(r, l - 1)[..Share(l)]
      else Block(r - Pow2(l - 1), l - 1)[Share(l)..]
    }
  }

  // The level at which rank r gets its task: the number of binary digits of r.
  function Level(r: nat, k: nat): (l: nat)
    requires r < Pow2(k)
    ensures l <= k && r < Pow2(l)
    ensures l > 0 ==> r >= Pow2(l - 1)
    ensures l == 0 <==> r == 0
  {
    if k == 0 || r >= Pow2(k - 1) then k else Level(r, k - 1)
  }

  // The rank that sends rank r its task.
  function Parent(r: nat, k: nat): (p: nat)
    requires 0 < r < Pow2(k)
    ensures p < Pow2(Level(r, k) - 1) && p + Pow2(Level(r, k) - 1) == r
  {
    r - Pow2(Level(r, k) - 1)
  }

  lemma {:induction false} Pow2Grows(l: nat, m: nat)
    requires l <= m
    ensures Pow2(l) <= Pow2(m)
    ensures l < m ==> 2 * Pow2(l) <= Pow2(m)
  {
    if l < m {
      Pow2Grows(l, m - 1);
    }
  }

  // The destination computed at level l is a rank, and it gets its task at level l + 1 from p only.
  lemma ChildOf(p: nat, l: nat, k: nat)
    requires l < k && p < Pow2(l)
    ensures 0 < p + Pow2(l) < Pow2(k)
    ensures Level(p + Pow2(l), k) == l + 1 && Parent(p + Pow2(l), k) == p
  {
    Pow2Grows(l + 1, k);
    var m := Level(p + Pow2(l), k);
    if m < l + 1 {
      Pow2Grows(m, l);
    } else if m > l + 1 {
      Pow2Grows(l + 1, m - 1);
    }
  }

  lemma LevelBelow(p: nat, l: nat, k: nat)
    requires l <= k && p < Pow2(k)
    ensures p < Pow2(l) <==> Level(p, k) <= l
  {
    var m := Level(p, k);
    if m <= l {
      Pow2Grows(m, l);
    } else {
      Pow2Grows(l, m - 1);
    }
  }

  // A block splits into the part that stays and the part that is sent.
  lemma BlockSplits(cfg: Config, p: nat, l: nat)
    requires cfg.Valid() && l < cfg.k && p < Pow2(l)
    ensures p < Pow2(l + 1) && p + Pow2(l) < Pow2(l + 1)
    ensures cfg.Share(l) == 2 * cfg.Share(l + 1)
    ensures cfg.Block(p, l + 1) == cfg.Block(p, l)[..cfg.Share(l + 1)]
    ensures cfg.Block(p + Pow2(l), l + 1) == cfg.Block(p, l)[cfg.Share(l + 1)..]
    ensures cfg.Block(p, l) == cfg.Block(p, l + 1) + cfg.Block(p + Pow2(l), l + 1)
  {
  }

  lemma {:induction false} ShareIsPositive(cfg: Config, l: nat)
    requires cfg.ts >= 1
    ensures cfg.Share(l) >= cfg.ts
    ensures l < cfg.k ==> cfg.Share(l) > cfg.ts
    decreases cfg.k - l
  {
    if l < cfg.k {
      ShareIsPositive(cfg, l + 1);
    }
  }

  // ---------- which block that is ----------

  // The l binary digits of r in reverse order.
  function Reversed(r: nat, l: nat): (b: nat)
    requires r < Pow2(l)
    ensures b < Pow2(l)
  {
    if l == 0 then 0
    else if r < Pow2(l - 1) then 2 * Reversed(r, l - 1)
    else 2 * Reversed(r - Pow2(l - 1), l - 1) + 1
  }

  // Where the block of rank r at level l starts.
  function Start(cfg: Config, r: nat, l: nat): nat
    requires r < Pow2(l)
  {
    if l == 0 then 0
    else if r < Pow2(l - 1) then Start(cfg, r, l - 1)
    else Start(cfg, r - Pow2(l - 1), l - 1) + cfg.Share(l)
  }

  lemma {:induction false} BlockAtStart(cfg: Config, r: nat, l: nat)
    requires cfg.Valid() && l <= cfg.k && r < Pow2(l)
    ensures Start(cfg, r, l) + cfg.Share(l) <= |cfg.input|
    ensures cfg.Block(r, l) == cfg.input[Start(cfg, r, l)..Start(cfg, r, l) + cfg.Share(l)]
    decreases l
  {
    if l > 0 {
      BlockAtStart(cfg, if r < Pow2(l - 1) then r else r - Pow2(l - 1), l - 1);
    }
  }

  // Rank r holds at level l the block whose number is r with its l digits reversed.
  lemma {:induction false} StartIsReversed(cfg: Config, r: nat, l: nat)
    requires cfg.Valid() && l <= cfg.k && r < Pow2(l)
    ensures Start(cfg, r, l) == Reversed(r, l) * cfg.Share(l)
    decreases l
  {
    var h := cfg.Share(l);
    if l > 0 {
      var q := if r < Pow2(l - 1) then r else r - Pow2(l - 1);
      StartIsReversed(cfg, q, l - 1);
      HalfOffsets(Reversed(q, l - 1), h);
    }
  }

  lemma HalfOffsets(b: nat, h: nat)
    ensures b * (2 * h) == (2 * b) * h
    ensures (2 * b + 1) * h == (2 * b) * h + h
  {
  }

  lemma {:induction false} ReversedInjective(r: nat, q: nat, l: nat)
    requires r < Pow2(l) && q < Pow2(l) && Reversed(r, l) == Reversed(q, l)
    ensures r == q
  {
    if l > 0 {
      var h := Pow2(l - 1);
      if r < h && q < h {
        ReversedInjective(r, q, l - 1);
      } else if r >= h && q >= h {
        ReversedInjective(r - h, q - h, l - 1);
      }
    }
  }

  // The rank whose leaf block is block number b.
  lemma {:induction false} ReversedSurjective(b: nat, l: nat) returns (r: nat)
    requires b < Pow2(l)
    ensures r < Pow2(l) && Reversed(r, l) == b
  {
    if l == 0 {
      r := 0;
    } else {
      var q := ReversedSurjective(b / 2, l - 1);
      r := if b % 2 == 0 then q else q + Pow2(l - 1);
    }
  }

  // The leaf blocks partition the input: each block of ts values belongs to exactly one rank.
  lemma LeafBlocksPartition(cfg: Config, b: nat) returns (r: nat)
    requires cfg.Valid() && b < cfg.Ranks()
    ensures r < cfg.Ranks() && (b + 1) * cfg.ts <= |cfg.input|
    ensures cfg.Block(r, cfg.k) == cfg.input[b * cfg.ts..(b + 1) * cfg.ts]
    ensures forall q :: 0 <= q < cfg.Ranks() && Reversed(q, cfg.k) == b ==> q == r
  {
    r := ReversedSurjective(b, cfg.k);
    BlockAtStart(cfg, r, cfg.k);
    StartIsReversed(cfg, r, cfg.k);
    assert (b + 1) * cfg.ts == b * cfg.ts + cfg.ts;
    forall q | 0 <= q < cfg.Ranks() && Reversed(q, cfg.k) == b ensures q == r {
      ReversedInjective(q, r, cfg.k);
    }
  }
}
