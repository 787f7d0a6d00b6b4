// The local work of one rank of the divide-and-conquer sort (PPD/MPI/T3/dc.c): processD,
// processC and the sort of the own part, on the arrays of the process. The machine in
// BinomialSort takes these as single steps, with the same outcome (SplitIsTwoSteps, MergeIsStep).
module BinomialWorker {
  import opened SortSpec
  import opened BinomialTree
  import opened Merging
  import opened BinomialSort

  class Worker {
    const rank: nat
    // vector_work and vector_aux: both hold sort_size values.
    const work: array<int>
    const aux: array<int>
    var actualSize: nat
    var actualLevel: nat

    ghost predicate Valid()
      reads this
    {
      work != aux && work.Length == aux.Length && actualSize <= work.Length
    }

    // The part of the work array in use.
    function Values(): seq<int>
      requires Valid()
      reads this, work
    {
      work[..actualSize]
    }

    constructor (rank: nat, sortSize: nat)
      ensures Valid() && fresh(work) && fresh(aux) && work.Length == sortSize && this.rank == rank
      ensures actualSize == 0 && actualLevel == 0
    {
      this.rank := rank;
      work, aux := new int[sortSize], new int[sortSize];
      actualSize, actualLevel := 0, 0;
    }

    // Copies count values of source, from position from, to the start of target.
    static method Copy(source: array<int>, from: nat, target: array<int>, to: nat, count: nat)
      requires source != target && from + count <= source.Length && to + count <= target.Length
      modifies target
      ensures target[to..to + count] == source[from..from + count]
      ensures target[..to] == old(target[..to]) && target[to + count..] == old(target[to + count..])
    {
      for k := 0 to count
        invariant target[to..to + k] == source[from..from + k]
        invariant target[..to] == old(target[..to]) && target[to + count..] == old(target[to + count..])
      {
        target[to + k] := source[from + k];
      }
    }

    // Sends the upper half of the own part, and the next level, to the rank 2^level further.
    method ProcessD() returns (destination: nat, task: seq<int>, level: nat)
      requires Valid()
      modifies this, aux
      ensures Valid() && Values() == old(Values()[..actualSize / 2])
      ensures task == old(Values()[actualSize / 2..actualSize / 2 + actualSize / 2])
      ensures destination == rank + Pow2(old(actualLevel)) && level == actualLevel == old(actualLevel) + 1
      ensures SplitsOff(rank, old(Values()), old(actualLevel), Values(), task, destination, level)
    {
      var sendSize := actualSize / 2;
      destination := rank + PowerOfTwo(actualLevel);
      Copy(work, sendSize, aux, 0, sendSize);
      task := aux[..sendSize];
      actualSize := sendSize;
      actualLevel := actualLevel + 1;
      level := actualLevel;
    }

    // pow(2, level), taken as exact.
    static function PowerOfTwo(level: nat): nat {
      Pow2(level)
    }

    // Sorts the own part.
    method SortOwn()
      requires Valid()
      modifies work
      ensures Valid() && Values() == Sort(old(Values()))
    {
      SortRange(work, 0, actualSize);
      assert work[..actualSize] == work[0..actualSize];
    }

    // Receives a sorted part behind the own one and merges both.
    method ProcessC(message: seq<int>)
      requires Valid() && actualSize + |message| <= work.Length
      modifies this`actualSize, work, aux
      ensures Valid() && Values() == Merged(old(Values()), message)
      ensures actualSize == old(actualSize) + |message|
    {
      var sendSize := Receive(message);
      ghost var own := work[..actualSize];
      Copy(aux, 0, work, actualSize, sendSize);
      assert work[0..actualSize] == own && work[actualSize..actualSize + sendSize] == message;
      Merge(work, 0, actualSize, actualSize + sendSize);
      actualSize := actualSize + sendSize;
      assert work[..actualSize] == work[0..actualSize];
    }

    // The message lands at the start of the auxiliary array; its length is reported.
    method Receive(message: seq<int>) returns (sendSize: nat)
      requires Valid() && |message| <= aux.Length
      modifies aux
      ensures sendSize == |message| && aux[..sendSize] == message
    {
      sendSize := |message|;
      for k := 0 to sendSize
        invariant aux[..k] == message[..k]
      {
        aux[k] := message[k];
      }
    }
  }

  // Half of the values goes, with the next level, to the rank 2^level further; half stays.
  ghost predicate SplitsOff(rank: nat, values: seq<int>, level: nat, kept: seq<int>, task: seq<int>, destination: nat, next: nat) {
    var half := |values| / 2;
    kept == values[..half] && task == values[half..half + half] && destination == rank + Pow2(level) && next == level + 1
  }

  // The machine splits and announces in two steps what ProcessD does.
  lemma SplitIsTwoSteps(cfg: Config, s: State, r: nat)
    requires Enabled(cfg, s, r, SendHalf)
    ensures var s1 := Apply(cfg, s, r, SendHalf);
      && Enabled(cfg, s1, r, SendLevel)
      && var p, c := s.procs[r], r + Pow2(s.procs[r].level);
         var s2 := Apply(cfg, s1, r, SendLevel);
         exists task: seq<int> ::
           && SplitsOff(r, p.buf, p.level, s2.procs[r].buf, task, c, s2.procs[r].level)
           && Chan(s2, r, c) == Chan(s, r, c) + [task, [s2.procs[r].level]]
           && s2.procs[r].pc.Split?
  {
    var p := s.procs[r];
    var half, c := |p.buf| / 2, r + Pow2(p.level);
    var task := p.buf[half..half + half];
    var s1 := Apply(cfg, s, r, SendHalf);
    var s2 := Apply(cfg, s1, r, SendLevel);
    assert SplitsOff(r, p.buf, p.level, s2.procs[r].buf, task, c, s2.procs[r].level);
    assert Chan(s2, r, c) == Chan(s, r, c) + [task, [s2.procs[r].level]];
  }

  // When a reply is taken (the root: while values are missing; any other rank: while children are), it is
  // merged as ProcessC does it, the values are as many more, one reply less is due, and its channel is
  // shorter by it.
  lemma MergeIsStep(cfg: Config, s: State, r: nat, src: nat)
    requires Enabled(cfg, s, r, TakeReply(src))
    ensures var p, s', message := s.procs[r], Apply(cfg, s, r, TakeReply(src)), Chan(s, src, r)[0];
      && (if r == 0 then |p.buf| < |cfg.input| else p.children > 0)
      && s'.procs[r] == p.(buf := Merged(p.buf, message), children := if r == 0 then p.children else p.children - 1)
      && |s'.procs[r].buf| == |p.buf| + |message|
      && Chan(s, src, r) == [message] + Chan(s', src, r)
      && forall i: nat, j: nat :: (i, j) != (src, r) ==> Chan(s', i, j) == Chan(s, i, j)
  {
    hide Merged;
  }

  // The own part is sorted as SortOwn does it, once it is as small as it gets.
  lemma SortIsStep(cfg: Config, s: State, r: nat)
    requires Enabled(cfg, s, r, SortOwn)
    ensures var p, s' := s.procs[r], Apply(cfg, s, r, SortOwn);
      && |p.buf| <= cfg.ts && Sorted(s'.procs[r].buf) && multiset(s'.procs[r].buf) == multiset(p.buf)
      && s'.procs[r].children == p.children && s'.chans == s.chans
  {
    SortIsSortedPermutation(s.procs[r].buf);
    hide Sort;
  }
}
