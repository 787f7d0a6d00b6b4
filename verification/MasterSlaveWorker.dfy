// The master's own work in the master/slave sort (PPD/MPI/T1/master-slave.c): handing out the next
// chunk and merging a reply, on the arrays of the process. The machine in MasterSlave takes these as
// single steps, with the same outcome (SendIsStep, ReceiveIsStep).
module MasterSlaveWorker {
  import opened SortSpec
  import opened Merging
  import opened MasterSlave

  class Master {
    const tasks: nat
    const tasksSize: nat
    const vectorStart: array<int>
    const vectorSort: array<int>
    var actualIndex: nat
    var tasksToReceive: nat
    var tasksSent: nat
    var tasksReceived: nat
    var firstTime: bool

    // Every chunk is not sent, out, or received; what is received fills the result from the left.
    ghost predicate Valid()
      reads this
    {
      && vectorStart != vectorSort
      && vectorStart.Length == vectorSort.Length == tasks * tasksSize
      && tasksSent == tasksReceived + tasksToReceive && tasksSent <= tasks
      && actualIndex == tasksReceived * tasksSize
      && (firstTime <==> tasksReceived == 0)
    }

    // The merged replies.
    ghost function Result(): seq<int>
      requires actualIndex <= vectorSort.Length
      reads this, vectorSort
    {
      vectorSort[..actualIndex]
    }

    constructor (tasks: nat, tasksSize: nat, input: array<int>)
      requires input.Length == tasks * tasksSize
      ensures Valid() && vectorStart == input && fresh(vectorSort)
      ensures this.tasks == tasks && this.tasksSize == tasksSize && tasksSent == tasksReceived == 0
    {
      this.tasks, this.tasksSize := tasks, tasksSize;
      vectorStart, vectorSort := input, new int[tasks * tasksSize];
      actualIndex, tasksToReceive, tasksSent, tasksReceived, firstTime := 0, 0, 0, 0, true;
    }

    // The next chunk goes out.
    method SendTask() returns (chunk: seq<int>)
      requires Valid() && tasksSent < tasks
      modifies this`tasksSent, this`tasksToReceive
      ensures Valid() && tasksSent == old(tasksSent) + 1
      ensures chunk == Chunk(old(tasksSent))
    {
      Fits(tasksSent, tasks, tasksSize);
      chunk := vectorStart[tasksSent * tasksSize..tasksSent * tasksSize + tasksSize];
      tasksSent := tasksSent + 1;
      tasksToReceive := tasksToReceive + 1;
    }

    static lemma {:induction false} Fits(k: nat, n: nat, size: nat)
      requires k < n
      ensures k * size + size == (k + 1) * size <= n * size
    {
      assert n * size == (n - 1) * size + size;
      if k + 1 < n {
        Fits(k, n - 1, size);
      }
    }

    // The k-th tasksSize values of the input.
    ghost function Chunk(k: nat): (c: seq<int>)
      requires Valid() && k < tasks
      reads this, vectorStart
      ensures |c| == tasksSize
    {
      Fits(k, tasks, tasksSize);
      vectorStart[k * tasksSize..k * tasksSize + tasksSize]
    }

    // A reply is copied behind the result and, but for the first one, merged into it.
    method Receive(slaveToMaster: array<int>)
      requires Valid() && tasksToReceive > 0
      requires slaveToMaster.Length == tasksSize && slaveToMaster != vectorSort
      requires actualIndex <= vectorSort.Length
      modifies this`actualIndex, this`tasksToReceive, this`tasksReceived, this`firstTime, vectorSort
      ensures Valid() && actualIndex <= vectorSort.Length
      ensures tasksReceived == old(tasksReceived) + 1 && tasksToReceive == old(tasksToReceive) - 1
      ensures Result() == Merged(old(Result()), slaveToMaster[..])
    {
      Fits(tasksReceived, tasks, tasksSize);
      tasksToReceive := tasksToReceive - 1;
      CopyReply(slaveToMaster);
      ghost var before := vectorSort[..actualIndex];
      var mid := tasksReceived * tasksSize;
      actualIndex := actualIndex + tasksSize;
      hide Merged;
      if firstTime {
        firstTime := false;
        MergedWithNothing(slaveToMaster[..]);
        assert vectorSort[..actualIndex] == vectorSort[mid..mid + tasksSize];
      } else {
        assert vectorSort[0..mid] == before;
        Merge(vectorSort, 0, mid, actualIndex);
        assert vectorSort[..actualIndex] == vectorSort[0..actualIndex];
      }
      tasksReceived := tasksReceived + 1;
    }

    static lemma MergedWithNothing(s: seq<int>)
      ensures Merged([], s) == s
    {}

    method CopyReply(slaveToMaster: array<int>)
      requires slaveToMaster.Length == tasksSize && slaveToMaster != vectorSort
      requires actualIndex + tasksSize <= vectorSort.Length
      modifies vectorSort
      ensures vectorSort[actualIndex..actualIndex + tasksSize] == slaveToMaster[..]
      ensures vectorSort[..actualIndex] == old(vectorSort[..actualIndex])
    {
      for k := 0 to tasksSize
        invariant slaveToMaster[..] == old(slaveToMaster[..])
        invariant vectorSort[actualIndex..actualIndex + k] == slaveToMaster[..k]
        invariant vectorSort[..actualIndex] == old(vectorSort[..actualIndex])
      {
        vectorSort[actualIndex + k] := slaveToMaster[k];
      }
    }
  }

  lemma {:induction false} OffsetIsProduct(cfg: Config, k: nat)
    ensures cfg.Offset(k) == k * cfg.size
  {
    if k > 0 {
      OffsetIsProduct(cfg, k - 1);
      assert (k - 1) * cfg.size + cfg.size == k * cfg.size;
    }
  }

  // What the machine sends is what SendTask returns, and it counts the same.
  lemma SendIsStep(cfg: Config, s: State, k: nat, phase: Phase)
    requires cfg.Valid() && k < |s.slaves| && s.sent < cfg.Tasks()
    ensures 0 <= s.sent * cfg.size && s.sent * cfg.size + cfg.size <= |cfg.input|
    ensures var r := SendChunk(cfg, s, k, phase);
      && r.slaves[k].inbox == s.slaves[k].inbox + [cfg.input[s.sent * cfg.size..s.sent * cfg.size + cfg.size]]
      && r.sent == s.sent + 1 && r.open == s.open + 1 && r.received == s.received
  {
    OffsetIsProduct(cfg, s.sent);
    OffsetsGrow(cfg, s.sent + 1, cfg.Tasks());
    assert cfg.Chunk(s.sent) == cfg.input[cfg.Offset(s.sent)..cfg.Offset(s.sent) + cfg.size];
  }

  // What the machine makes of a reply is what Receive leaves, for the first reply too.
  lemma ReceiveIsStep(cfg: Config, s: State, k: nat)
    requires RunningInv(cfg, s) && Enabled(cfg, s, MasterReceives(k))
    ensures var r := Apply(cfg, s, MasterReceives(k));
      && r.sorted == Merged(s.sorted, s.slaves[k].outbox[0])
      && r.received == s.received + 1 && r.open == s.open - 1 && r.sent == s.sent
  {
    hide TotalLoad, TotalStoppers, StopChunks, SlaveInv;
    if s.received == 0 {
      assert s.sorted == [];
    }
  }
}
