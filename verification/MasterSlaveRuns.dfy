// Whole runs of the master/slave sort (PPD/MPI/T1/master-slave.c): when they complete, and
// what they leave.
module MasterSlaveRuns {
  import opened SortSpec
  import opened RankSort
  import opened MasterSlave
  import opened MasterSlaveProof

  // A run from the start: any enabled step may come next.
  ghost predicate Run(cfg: Config, states: seq<State>, acts: seq<Act>) {
    && cfg.Valid()
    && |states| == |acts| + 1
    && Init(cfg, states[0])
    && forall t :: 0 <= t < |acts| ==> Enabled(cfg, states[t], acts[t]) && states[t + 1] == Apply(cfg, states[t], acts[t])
  }

  // In every order of completion: the books balance, and no slave has more than one chunk.
  lemma {:induction false} RunKeepsInv(cfg: Config, states: seq<State>, acts: seq<Act>, t: nat)
    requires Run(cfg, states, acts) && t < |states|
    ensures Inv(cfg, states[t])
    ensures DistinctChunks(cfg) ==> ContentInv(cfg, states[t])
  {
    hide Inv, ContentInv, Apply, Enabled, DistinctChunks;
    if t == 0 {
      InitHolds(cfg, states[0]);
      RunningIsInv(cfg, states[0]);
    } else {
      RunKeepsInv(cfg, states, acts, t - 1);
      StepKeepsInv(cfg, states[t - 1], acts[t - 1]);
      if DistinctChunks(cfg) {
        StepKeepsContent(cfg, states[t - 1], acts[t - 1]);
      }
    }
  }

  lemma RunningIsInv(cfg: Config, s: State)
    requires RunningInv(cfg, s)
    ensures Inv(cfg, s)
  {
  }

  // What the invariant says about the counters.
  lemma BooksBalance(cfg: Config, s: State)
    requires Inv(cfg, s)
    ensures s.sent == s.received + s.open <= cfg.Tasks()
    ensures !s.phase.Stop? && !s.phase.Done? ==>
              s.open == TotalLoad(s.slaves) && forall k :: 0 <= k < |s.slaves| ==> Load(s.slaves[k]) <= 1
    ensures |s.sorted| == cfg.Offset(s.received)
  {
    hide TotalLoad, TotalStoppers, StopChunks, Load;
    if RunningInv(cfg, s) {
      forall k | 0 <= k < |s.slaves| ensures Load(s.slaves[k]) <= 1 {
        assert SlaveInv(cfg, s.slaves[k]);
      }
    }
  }

  // ---------- chunks that stop a slave ----------

  lemma {:induction false} StopChunksCount(cfg: Config, n: nat)
    requires cfg.Valid() && n <= cfg.Tasks()
    ensures StopChunks(cfg, n) == 0 <==> forall k :: 0 <= k < n ==> cfg.Chunk(k)[0] > STOP
  {
    if n > 0 {
      StopChunksCount(cfg, n - 1);
    }
  }

  lemma {:induction false} StopChunksGrow(cfg: Config, m: nat, n: nat)
    requires cfg.Valid() && m <= n <= cfg.Tasks()
    ensures StopChunks(cfg, m) <= StopChunks(cfg, n)
  {
    if m < n {
      StopChunksGrow(cfg, m, n - 1);
    }
  }

  ghost predicate HeadsAboveStop(cfg: Config)
    requires cfg.Valid()
  {
    forall k :: 0 <= k < cfg.Tasks() ==> cfg.Chunk(k)[0] > -1
  }

  // ---------- every run ends ----------

  function Weight(w: Slave): nat {
    6 * |w.inbox| + 2 * |w.outbox| + (if w.work.Sorting? then 4 else 0)
  }

  function TotalWeight(ws: seq<Slave>): nat {
    if ws == [] then 0 else TotalWeight(ws[..|ws| - 1]) + Weight(ws[|ws| - 1])
  }

  lemma {:induction false} WeightAfter(ws: seq<Slave>, k: nat, w: Slave)
    requires k < |ws|
    ensures TotalWeight(ws[k := w]) + Weight(ws[k]) == TotalWeight(ws) + Weight(w)
  {
    hide Weight;
    var n := |ws| - 1;
    if k < n {
      WeightAfter(ws[..n], k, w);
      assert ws[k := w][..n] == ws[..n][k := w];
    } else {
      assert ws[k := w][..n] == ws[..n];
    }
  }

  function PhaseWeight(s: State): nat {
    var n := |s.slaves|;
    match s.phase
    case Dispatch(_) => 8 * n + 4
    case Gather => 8 * n + 2
    case Redispatch(_) => 8 * n + 3
    case Stop(k) => if k <= n then 8 * (n - k) + 1 else 0
    case Done => 0
  }

  // A bound on the steps that are left.
  function Left(cfg: Config, s: State): nat {
    PhaseWeight(s) + TotalWeight(s.slaves) + (if s.sent <= cfg.Tasks() then 10 * (cfg.Tasks() - s.sent) else 0)
  }

  // The slave that a step changes.
  function Touched(s: State, act: Act): nat {
    match act
    case MasterSteps => (match s.phase
      case Dispatch(k) => k
      case Redispatch(k) => k
      case Stop(k) => k
      case _ => 0)
    case MasterReceives(k) => k
    case SlaveReceives(k) => k
    case SlaveReplies(k) => k
  }

  lemma StepProgresses(cfg: Config, s: State, act: Act)
    requires cfg.Valid() && s.sent <= cfg.Tasks() && Enabled(cfg, s, act)
    ensures Apply(cfg, s, act).sent <= cfg.Tasks()
    ensures Left(cfg, Apply(cfg, s, act)) < Left(cfg, s)
  {
    hide TotalWeight, RankSort.Ranked, Merging.Merged;
    var s', k := Apply(cfg, s, act), Touched(s, act);
    if k < |s.slaves| {
      WeightAfter(s.slaves, k, s'.slaves[k]);
      assert s'.slaves == s.slaves[k := s'.slaves[k]];
    } else {
      assert s'.slaves == s.slaves;
    }
  }

  lemma {:induction false} RunLength(cfg: Config, states: seq<State>, acts: seq<Act>, t: nat)
    requires Run(cfg, states, acts) && t < |states|
    ensures states[t].sent <= cfg.Tasks() && t + Left(cfg, states[t]) <= Left(cfg, states[0])
  {
    hide Apply, Enabled, Left;
    if t > 0 {
      RunLength(cfg, states, acts, t - 1);
      StepProgresses(cfg, states[t - 1], acts[t - 1]);
    }
  }

  // ---------- when a run completes ----------

  ghost predicate Finished(s: State) {
    s.phase.Done? && forall k :: 0 <= k < |s.slaves| ==> s.slaves[k].work.Stopped? && s.slaves[k].inbox == [] && s.slaves[k].outbox == []
  }

  // An enabled step that does not rely on buffering: if it sends, the receiver is waiting.
  ghost predicate NeedsNoBuffer(cfg: Config, s: State, act: Act) {
    && Enabled(cfg, s, act)
    && match act
       case MasterSteps => (match s.phase
         case Dispatch(k) => k < |s.slaves| ==> Ready(s.slaves[k])
         case Redispatch(k) => k < |s.slaves| ==> Ready(s.slaves[k])
         case Stop(k) => k < |s.slaves| ==> Ready(s.slaves[k])
         case _ => true)
       case SlaveReplies(k) => s.phase.Gather? && s.open > 0 && k < |s.slaves| && s.slaves[k].outbox == []
       case _ => true
  }

  // A slave that holds a chunk can go on, unless the chunk has stopped it.
  lemma LoadedSlaveMoves(cfg: Config, s: State, k: nat) returns (act: Act)
    requires RunningInv(cfg, s) && s.phase.Gather? && s.open > 0 && k < |s.slaves| && Load(s.slaves[k]) > 0
    requires !s.slaves[k].work.Stopped?
    ensures NeedsNoBuffer(cfg, s, act)
  {
    hide TotalLoad, TotalStoppers, StopChunks;
    var w := s.slaves[k];
    assert SlaveInv(cfg, w);
    if w.outbox != [] {
      act := MasterReceives(k);
    } else if w.inbox != [] {
      assert IsChunk(cfg, w.inbox[0]);
      act := SlaveReceives(k);
    } else {
      assert IsChunk(cfg, w.work.chunk);
      act := SlaveReplies(k);
    }
  }

  // If no chunk stops a slave, some step is ready until all is done, even if every send waits
  // for its receiver.
  lemma NeverStuck(cfg: Config, s: State) returns (act: Act)
    requires Inv(cfg, s) && !Finished(s) && StopChunks(cfg, cfg.Tasks()) == 0
    ensures NeedsNoBuffer(cfg, s, act)
  {
    hide TotalLoad, TotalStoppers, StopChunks, SlaveInv;
    if RunningInv(cfg, s) {
      if s.phase.Gather? && s.open > 0 {
        var k := SomeoneIsLoaded(s.slaves);
        StopChunksGrow(cfg, s.sent, cfg.Tasks());
        LoadIsBelow(s.slaves, k);
        act := LoadedSlaveMoves(cfg, s, k);
      } else {
        act := MasterSteps;
      }
    } else if s.phase.Stop? {
      act := MasterSteps;
    } else {
      var k :| 0 <= k < |s.slaves| && !(s.slaves[k].work.Stopped? && s.slaves[k].inbox == [] && s.slaves[k].outbox == []);
      assert Told(cfg, s.slaves[k]);
      act := SlaveReceives(k);
    }
  }

  // The run of a program ends with everybody stopped exactly when every chunk starts with a
  // value above STOP; otherwise the master waits for ever for a slave that has stopped early.
  lemma CompletesExactly(cfg: Config, states: seq<State>, acts: seq<Act>)
    requires Run(cfg, states, acts)
    requires forall act :: !Enabled(cfg, states[|acts|], act)
    ensures Finished(states[|acts|]) <==> HeadsAboveStop(cfg)
    ensures |acts| <= Left(cfg, states[0])
  {
    var s := states[|acts|];
    hide Run, Enabled, Finished, StopChunks, Left;
    RunKeepsInv(cfg, states, acts, |acts|);
    StopChunksCount(cfg, cfg.Tasks());
    if HeadsAboveStop(cfg) && !Finished(s) {
      var act := NeverStuck(cfg, s);
      NoBufferIsEnabled(cfg, s, act);
      assert false;
    }
    if Finished(s) {
      FinishedIsEnding(cfg, s);
    }
    RunLength(cfg, states, acts, |acts|);
  }

  lemma NoBufferIsEnabled(cfg: Config, s: State, act: Act)
    requires NeedsNoBuffer(cfg, s, act)
    ensures Enabled(cfg, s, act)
  {
  }

  lemma FinishedIsEnding(cfg: Config, s: State)
    requires Inv(cfg, s) && Finished(s)
    ensures EndingInv(cfg, s) && StopChunks(cfg, cfg.Tasks()) == 0
  {
  }

  // With distinct values inside every chunk, the master ends up with the sorted input,
  // whatever the order of the replies.
  lemma RunSorts(cfg: Config, states: seq<State>, acts: seq<Act>, t: nat)
    requires Run(cfg, states, acts) && t < |states| && DistinctChunks(cfg)
    requires states[t].phase.Stop? || states[t].phase.Done?
    ensures states[t].sorted == Sort(cfg.input)
  {
    hide Run, Sort, TotalValues;
    RunKeepsInv(cfg, states, acts, t);
    SortUnique(cfg.input, states[t].sorted);
  }
}
