// What every step of the master/slave sort keeps, for every order in which the slaves finish
// (PPD/MPI/T1/master-slave.c).
module MasterSlaveProof {
  import opened SortSpec
  import opened Merging
  import opened RankSort
  import opened MasterSlave

  // ---------- sums over the slaves ----------

  lemma {:induction false} LoadAfter(ws: seq<Slave>, k: nat, w: Slave)
    requires k < |ws|
    ensures TotalLoad(ws[k := w]) + Load(ws[k]) == TotalLoad(ws) + Load(w)
    ensures TotalStoppers(ws[k := w]) + Stoppers(ws[k]) == TotalStoppers(ws) + Stoppers(w)
  {
    hide Load, Stoppers;
    var n := |ws| - 1;
    if k < n {
      LoadAfter(ws[..n], k, w);
      assert ws[k := w][..n] == ws[..n][k := w];
    } else {
      assert ws[k := w][..n] == ws[..n];
    }
  }

  lemma {:induction false} ValuesAfter(ws: seq<Slave>, k: nat, w: Slave)
    requires k < |ws|
    ensures TotalValues(ws[k := w]) + Values(ws[k]) == TotalValues(ws) + Values(w)
  {
    hide Values;
    var n := |ws| - 1;
    if k < n {
      ValuesAfter(ws[..n], k, w);
      assert ws[k := w][..n] == ws[..n][k := w];
      Exchange(TotalValues(ws[..n][k := w]), Values(ws[k]), TotalValues(ws[..n]), Values(w), Values(ws[n]));
    } else {
      assert ws[k := w][..n] == ws[..n];
    }
  }

  lemma Exchange(a: multiset<int>, b: multiset<int>, c: multiset<int>, d: multiset<int>, e: multiset<int>)
    requires a + b == c + d
    ensures (a + e) + b == (c + e) + d
  {
    assert (a + e) + b == (a + b) + e;
    assert (c + e) + d == (c + d) + e;
  }

  lemma {:induction false} SomeoneIsLoaded(ws: seq<Slave>) returns (k: nat)
    requires TotalLoad(ws) > 0
    ensures k < |ws| && Load(ws[k]) > 0
  {
    if Load(ws[|ws| - 1]) > 0 {
      k := |ws| - 1;
    } else {
      k := SomeoneIsLoaded(ws[..|ws| - 1]);
    }
  }

  lemma {:induction false} NobodyIsLoaded(ws: seq<Slave>)
    requires TotalLoad(ws) == 0
    ensures TotalStoppers(ws) == 0 && TotalValues(ws) == multiset{}
    ensures forall k :: 0 <= k < |ws| ==> Load(ws[k]) == 0
  {
    if ws != [] {
      NobodyIsLoaded(ws[..|ws| - 1]);
    }
  }

  lemma {:induction false} LoadIsBelow(ws: seq<Slave>, k: nat)
    requires k < |ws|
    ensures Load(ws[k]) <= TotalLoad(ws) && Stoppers(ws[k]) <= TotalStoppers(ws)
  {
    hide Load, Stoppers;
    if k < |ws| - 1 {
      LoadIsBelow(ws[..|ws| - 1], k);
    }
  }

  // ---------- single slaves ----------

  lemma OneMessage(m: seq<int>)
    ensures AllValues([m]) == multiset(m) && AllValues([]) == multiset{}
    ensures StopHeads([m]) == (if m != [] && m[0] > STOP then 0 else 1) && StopHeads([]) == 0
  {
    assert [m][..0] == [];
  }

  // A ready slave gets a chunk.
  lemma GetsChunk(cfg: Config, w: Slave, m: seq<int>)
    requires cfg.Valid() && SlaveInv(cfg, w) && Ready(w) && IsChunk(cfg, m)
    ensures var w' := w.(inbox := w.inbox + [m]);
      SlaveInv(cfg, w') && Load(w') == 1 && Load(w) == 0
      && Stoppers(w') == (if m != [] && m[0] > STOP then 0 else 1) && Stoppers(w) == 0
      && Values(w') == multiset(m) && Values(w) == multiset{}
  {
    OneMessage(m);
    assert w.inbox + [m] == [m];
  }

  // A slave takes its chunk: it sorts it, or it stops.
  lemma TakesChunk(cfg: Config, w: Slave)
    requires cfg.Valid() && SlaveInv(cfg, w) && w.work.Idle? && w.inbox != []
    ensures var m := w.inbox[0];
      m != [] && var w' := w.(work := if m[0] > STOP then Sorting(m) else Stopped(m), inbox := w.inbox[1..]);
      SlaveInv(cfg, w') && Load(w') == Load(w) == 1 && Stoppers(w') == Stoppers(w) && Values(w') == Values(w)
  {
    var m := w.inbox[0];
    assert w.inbox == [m] && w.inbox[1..] == [] && w.outbox == [];
    assert IsChunk(cfg, m);
    OneMessage(m);
  }

  // A slave gives its chunk back.
  lemma GivesBack(cfg: Config, w: Slave)
    requires cfg.Valid() && SlaveInv(cfg, w) && w.work.Sorting?
    ensures |w.work.chunk| == |w.out| == cfg.size
    ensures var m := Ranked(w.work.chunk, w.out);
      var w' := w.(work := Idle, out := m, outbox := w.outbox + [m]);
      SlaveInv(cfg, w') && Load(w') == Load(w) == 1 && Stoppers(w') == Stoppers(w)
      && w'.outbox == [m] && Values(w') == multiset(m) && Values(w) == multiset(w.work.chunk)
  {
    assert IsChunk(cfg, w.work.chunk);
    var m := Ranked(w.work.chunk, w.out);
    OneMessage(m);
    assert w.outbox + [m] == [m];
  }

  // The master takes a reply.
  lemma ReplyTaken(cfg: Config, w: Slave)
    requires cfg.Valid() && SlaveInv(cfg, w) && w.outbox != []
    ensures var w' := w.(outbox := w.outbox[1..]);
      SlaveInv(cfg, w') && Ready(w') && Load(w) == 1 && Load(w') == 0
      && Stoppers(w) == Stoppers(w') == 0
      && |w.outbox[0]| == cfg.size && Values(w) == multiset(w.outbox[0]) && Values(w') == multiset{}
  {
    OneMessage(w.outbox[0]);
    assert w.outbox == [w.outbox[0]] && w.outbox[1..] == [];
  }

  // ---------- the steps while chunks are out ----------

  lemma SendKeeps(cfg: Config, s: State, k: nat, phase: Phase)
    requires RunningInv(cfg, s) && k < |s.slaves| && Ready(s.slaves[k]) && s.sent < cfg.Tasks()
    requires phase == Gather
      || (s.phase == Dispatch(k) && phase == Dispatch(k + 1))
    ensures RunningInv(cfg, SendChunk(cfg, s, k, phase))
  {
    hide SlaveInv, Load, Stoppers, TotalLoad, TotalStoppers;
    var w, m := s.slaves[k], cfg.Chunk(s.sent);
    var w' := w.(inbox := w.inbox + [m]);
    assert IsChunk(cfg, m);
    GetsChunk(cfg, w, m);
    LoadAfter(s.slaves, k, w');
  }

  lemma DispatchKeeps(cfg: Config, s: State)
    requires RunningInv(cfg, s) && Enabled(cfg, s, MasterSteps)
    ensures Inv(cfg, Apply(cfg, s, MasterSteps))
  {
    hide SlaveInv, Load, Stoppers, TotalLoad, TotalStoppers, SendChunk;
    match s.phase
    case Dispatch(k) =>
      if k < |s.slaves| {
        SendKeeps(cfg, s, k, Dispatch(k + 1));
      }
    case Gather => StopsGathering(cfg, s);
    case Redispatch(k) =>
      if s.sent < cfg.Tasks() {
        SendKeeps(cfg, s, k, Gather);
      }
  }

  // Nothing is out any more: every chunk was sent and came back, and no slave has stopped.
  lemma StopsGathering(cfg: Config, s: State)
    requires RunningInv(cfg, s) && s.phase.Gather? && s.open == 0
    ensures EndingInv(cfg, s.(phase := Stop(0))) && TotalValues(s.slaves) == multiset{}
  {
    NobodyIsLoaded(s.slaves);
    forall i | 0 <= i < |s.slaves| ensures Ready(s.slaves[i]) && |s.slaves[i].out| == cfg.size {
      assert SlaveInv(cfg, s.slaves[i]);
      assert Load(s.slaves[i]) == 0;
    }
  }

  lemma ReceiveKeeps(cfg: Config, s: State, k: nat)
    requires RunningInv(cfg, s) && Enabled(cfg, s, MasterReceives(k))
    ensures RunningInv(cfg, Apply(cfg, s, MasterReceives(k)))
  {
    hide SlaveInv, Load, Stoppers, TotalLoad, TotalStoppers, Merged;
    var w := s.slaves[k];
    var w' := w.(outbox := w.outbox[1..]);
    ReplyTaken(cfg, w);
    LoadAfter(s.slaves, k, w');
  }

  lemma SlaveKeeps(cfg: Config, s: State, act: Act)
    requires RunningInv(cfg, s) && Enabled(cfg, s, act) && (act.SlaveReceives? || act.SlaveReplies?)
    ensures RunningInv(cfg, Apply(cfg, s, act))
  {
    var s' := Apply(cfg, s, act);
    SlaveAlone(cfg, s, act);
    hide SlaveInv, Load, Stoppers, TotalLoad, TotalStoppers, StopChunks, Apply, Enabled, RunningInv;
    SlaveStep(cfg, s, s', act.k);
  }

  // What a slave's own step does to it.
  lemma SlaveAlone(cfg: Config, s: State, act: Act)
    requires RunningInv(cfg, s) && Enabled(cfg, s, act) && (act.SlaveReceives? || act.SlaveReplies?)
    ensures var s', k := Apply(cfg, s, act), act.k;
      && k < |s.slaves| == |s'.slaves| && s' == s.(slaves := s.slaves[k := s'.slaves[k]])
      && SlaveInv(cfg, s'.slaves[k])
      && Load(s'.slaves[k]) == Load(s.slaves[k]) == 1 && Stoppers(s'.slaves[k]) == Stoppers(s.slaves[k])
  {
    hide SlaveInv, Load, Stoppers, TotalLoad, TotalStoppers, Ranked, StopChunks;
    if act.SlaveReceives? { TakesChunk(cfg, s.slaves[act.k]); } else { GivesBack(cfg, s.slaves[act.k]); }
  }

  // A slave that keeps its load changes nothing else.
  lemma SlaveStep(cfg: Config, s: State, s': State, k: nat)
    requires RunningInv(cfg, s) && k < |s.slaves| == |s'.slaves| && s' == s.(slaves := s.slaves[k := s'.slaves[k]])
    requires SlaveInv(cfg, s'.slaves[k])
    requires Load(s'.slaves[k]) == Load(s.slaves[k]) == 1 && Stoppers(s'.slaves[k]) == Stoppers(s.slaves[k])
    ensures RunningInv(cfg, s')
  {
    hide SlaveInv, Load, Stoppers, TotalLoad, TotalStoppers, StopChunks;
    LoadAfter(s.slaves, k, s'.slaves[k]);
    LoadedIsNotReady(s.slaves[k]);
  }

  lemma LoadedIsNotReady(w: Slave)
    ensures Load(w) > 0 ==> !Ready(w)
  {
  }

  // ---------- the steps while the slaves are stopped ----------

  lemma EndingKeeps(cfg: Config, s: State, act: Act)
    requires EndingInv(cfg, s) && Enabled(cfg, s, act)
    ensures EndingInv(cfg, Apply(cfg, s, act))
    ensures Apply(cfg, s, act).sorted == s.sorted
  {
    hide Merged, Ranked;
    match act
    case MasterSteps =>
    case MasterReceives(k) =>
    case SlaveReceives(k) => NobodySorts(cfg, s, k);
    case SlaveReplies(k) => NobodySorts(cfg, s, k);
  }

  lemma NobodySorts(cfg: Config, s: State, k: nat)
    requires EndingInv(cfg, s) && k < |s.slaves|
    ensures Told(cfg, s.slaves[k]) || Ready(s.slaves[k])
    ensures !s.slaves[k].work.Sorting?
  {
  }

  lemma InitHolds(cfg: Config, s: State)
    requires cfg.Valid() && Init(cfg, s)
    ensures RunningInv(cfg, s) && ContentInv(cfg, s)
  {
    FreshSlaves(s.slaves);
  }

  lemma {:induction false} FreshSlaves(ws: seq<Slave>)
    requires forall k :: 0 <= k < |ws| ==> Ready(ws[k])
    ensures TotalLoad(ws) == 0 && TotalStoppers(ws) == 0 && TotalValues(ws) == multiset{}
  {
    if ws != [] {
      FreshSlaves(ws[..|ws| - 1]);
    }
  }

  // Every step keeps the invariant, whichever slave is the next to finish.
  lemma StepKeepsInv(cfg: Config, s: State, act: Act)
    requires Inv(cfg, s) && Enabled(cfg, s, act)
    ensures cfg.Valid() && Inv(cfg, Apply(cfg, s, act))
  {
    hide Apply;
    if EndingInv(cfg, s) {
      EndingKeeps(cfg, s, act);
    } else {
      match act
      case MasterSteps => DispatchKeeps(cfg, s);
      case MasterReceives(k) => ReceiveKeeps(cfg, s, k);
      case SlaveReceives(k) => SlaveKeeps(cfg, s, act);
      case SlaveReplies(k) => SlaveKeeps(cfg, s, act);
    }
  }

  // ---------- the contents ----------

  // What changes at one slave changes in the sum.
  lemma ValuesMove(total: multiset<int>, total': multiset<int>, one: multiset<int>, one': multiset<int>, kept: multiset<int>)
    requires total' + one == total + one'
    ensures one == one' ==> total' == total
    ensures one == multiset{} ==> kept + total' == (kept + total) + one'
    ensures one' == multiset{} ==> (kept + one) + total' == kept + total
  {
    if one == one' {
      Cancel(total', total, one);
    }
    if one == multiset{} {
      assert total' == total + one';
      assert kept + total' == (kept + total) + one';
    }
    if one' == multiset{} {
      assert (kept + one) + total' == kept + (total' + one);
    }
  }

  lemma Cancel(a: multiset<int>, b: multiset<int>, c: multiset<int>)
    requires a + c == b + c
    ensures a == b
  {
    assert a == (a + c) - c && b == (b + c) - c;
  }

  lemma SendKeepsContent(cfg: Config, s: State, k: nat, phase: Phase)
    requires RunningInv(cfg, s) && ContentInv(cfg, s) && k < |s.slaves| && Ready(s.slaves[k]) && s.sent < cfg.Tasks()
    requires !phase.Stop? && !phase.Done?
    ensures ContentInv(cfg, SendChunk(cfg, s, k, phase))
  {
    hide Values, TotalValues, TotalLoad, TotalStoppers, StopChunks, SentValues, Load, Stoppers;
    var w, m := s.slaves[k], cfg.Chunk(s.sent);
    var s' := SendChunk(cfg, s, k, phase);
    assert SlaveInv(cfg, w) && IsChunk(cfg, m);
    GetsChunk(cfg, w, m);
    hide SlaveInv;
    ValuesAfter(s.slaves, k, s'.slaves[k]);
    ValuesMove(TotalValues(s.slaves), TotalValues(s'.slaves), Values(w), Values(s'.slaves[k]), multiset(s.sorted));
    SentGrows(cfg, s.sent);
    assert forall i :: 0 <= i < |s.slaves| ==> RepliesSorted(s.slaves[i]) && s'.slaves[i].outbox == s.slaves[i].outbox;
  }

  lemma SentGrows(cfg: Config, n: nat)
    requires cfg.Valid() && n < cfg.Tasks()
    ensures SentValues(cfg, n + 1) == SentValues(cfg, n) + multiset(cfg.Chunk(n))
  {
    OffsetsGrow(cfg, n + 1, cfg.Tasks());
    assert cfg.input[..cfg.Offset(n + 1)] == cfg.input[..cfg.Offset(n)] + cfg.Chunk(n);
  }

  lemma ReceiveKeepsContent(cfg: Config, s: State, k: nat)
    requires RunningInv(cfg, s) && ContentInv(cfg, s) && Enabled(cfg, s, MasterReceives(k))
    ensures ContentInv(cfg, Apply(cfg, s, MasterReceives(k)))
  {
    hide Values, TotalValues, Merged, SentValues;
    var w, s' := s.slaves[k], Apply(cfg, s, MasterReceives(k));
    var m := w.outbox[0];
    assert SlaveInv(cfg, w) && RepliesSorted(w);
    ReplyTaken(cfg, w);
    hide SlaveInv;
    ValuesAfter(s.slaves, k, s'.slaves[k]);
    ValuesMove(TotalValues(s.slaves), TotalValues(s'.slaves), Values(w), Values(s'.slaves[k]), multiset(s.sorted));
    MergedIsSorted(s.sorted, m);
    MergedKeepsValues(s.sorted, m);
    assert s.received == 0 ==> s.sorted == [];
    assert forall i :: 0 <= i < |s.slaves| && i != k ==> RepliesSorted(s.slaves[i]) && s'.slaves[i] == s.slaves[i];
  }

  // If the step is a slave's answer, the answer is the sorted chunk.
  ghost predicate AnswersRight(cfg: Config, s: State, act: Act) {
    act.SlaveReplies? && Enabled(cfg, s, act) ==>
      Ranked(s.slaves[act.k].work.chunk, s.slaves[act.k].out) == Sort(s.slaves[act.k].work.chunk)
  }

  lemma DistinctAnswers(cfg: Config, s: State, act: Act)
    requires Inv(cfg, s) && cfg.Valid() && DistinctChunks(cfg)
    ensures AnswersRight(cfg, s, act)
  {
    hide Ranked, Sort, TotalLoad, TotalStoppers, StopChunks;
    if act.SlaveReplies? && Enabled(cfg, s, act) {
      var w := s.slaves[act.k];
      if EndingInv(cfg, s) {
        NobodySorts(cfg, s, act.k);
      } else {
        assert SlaveInv(cfg, w) && IsChunk(cfg, w.work.chunk);
        RankedSorts(w.work.chunk, w.out);
      }
    }
  }

  lemma SlaveKeepsContent(cfg: Config, s: State, act: Act)
    requires RunningInv(cfg, s) && ContentInv(cfg, s) && AnswersRight(cfg, s, act)
    requires Enabled(cfg, s, act) && (act.SlaveReceives? || act.SlaveReplies?)
    ensures ContentInv(cfg, Apply(cfg, s, act))
  {
    hide Values, TotalValues, Ranked, Sort, SentValues;
    var w, s' := s.slaves[act.k], Apply(cfg, s, act);
    assert SlaveInv(cfg, w) && RepliesSorted(w);
    if act.SlaveReceives? {
      TakesChunk(cfg, w);
    } else {
      GivesBack(cfg, w);
      SortIsSortedPermutation(w.work.chunk);
    }
    assert RepliesSorted(s'.slaves[act.k]) && Values(s'.slaves[act.k]) == Values(w);
    hide SlaveInv, RepliesSorted;
    ValuesAfter(s.slaves, act.k, s'.slaves[act.k]);
    ValuesMove(TotalValues(s.slaves), TotalValues(s'.slaves), Values(w), Values(s'.slaves[act.k]), multiset(s.sorted));
    assert forall i :: 0 <= i < |s.slaves| && i != act.k ==> RepliesSorted(s.slaves[i]) && s'.slaves[i] == s.slaves[i];
  }

  // With distinct values inside every chunk the merged part is always sorted and made of
  // exactly the chunks that have come back.
  lemma StepKeepsContent(cfg: Config, s: State, act: Act)
    requires Inv(cfg, s) && ContentInv(cfg, s) && DistinctChunks(cfg) && Enabled(cfg, s, act)
    ensures ContentInv(cfg, Apply(cfg, s, act))
  {
    assert cfg.Valid();
    hide Inv, ContentInv, DistinctChunks, AnswersRight, Apply, Enabled;
    DistinctAnswers(cfg, s, act);
    RightStepKeepsContent(cfg, s, act);
  }

  // It is enough that every answer is the sorted chunk.
  lemma RightStepKeepsContent(cfg: Config, s: State, act: Act)
    requires Inv(cfg, s) && ContentInv(cfg, s) && AnswersRight(cfg, s, act) && Enabled(cfg, s, act)
    ensures ContentInv(cfg, Apply(cfg, s, act))
  {
    hide TotalValues, SlaveInv;
    if EndingInv(cfg, s) {
      EndingKeeps(cfg, s, act);
      EndingStays(cfg, s, act);
    } else {
      match act
      case MasterSteps => MasterKeepsContent(cfg, s);
      case MasterReceives(k) => ReceiveKeepsContent(cfg, s, k);
      case SlaveReceives(k) => SlaveKeepsContent(cfg, s, act);
      case SlaveReplies(k) => SlaveKeepsContent(cfg, s, act);
    }
  }

  lemma EndingStays(cfg: Config, s: State, act: Act)
    requires EndingInv(cfg, s) && Enabled(cfg, s, act)
    ensures var s' := Apply(cfg, s, act); (s'.phase.Stop? || s'.phase.Done?) && s'.sent == s.sent
  {
  }

  lemma MasterKeepsContent(cfg: Config, s: State)
    requires RunningInv(cfg, s) && ContentInv(cfg, s) && Enabled(cfg, s, MasterSteps)
    ensures ContentInv(cfg, Apply(cfg, s, MasterSteps))
  {
    hide TotalValues, SlaveInv, SendChunk;
    match s.phase
    case Dispatch(k) =>
      if k < |s.slaves| {
        SendKeepsContent(cfg, s, k, Dispatch(k + 1));
      }
    case Gather =>
      StopsGathering(cfg, s);
      assert cfg.input[..cfg.Offset(cfg.Tasks())] == cfg.input;
    case Redispatch(k) =>
      if s.sent < cfg.Tasks() {
        SendKeepsContent(cfg, s, k, Gather);
      }
  }
}
