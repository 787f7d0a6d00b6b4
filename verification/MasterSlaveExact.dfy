// When the farm as a whole sorts (PPD/MPI/T1/master-slave.c): exactly when every answer is right in every
// run, which can be read off the input. A slave sorts chunk k into the array that holds its answer to an
// earlier chunk j; positions that repeat their neighbour in chunk k keep what chunk j left there.
module MasterSlaveExact {
  import opened SortSpec
  import opened RankSort
  import opened MasterSlave
  import opened MasterSlaveProof
  import opened MasterSlaveRuns
  import opened MasterSlaveStale
  import opened MasterSlaveMass

  // ---------- one run ----------

  lemma {:induction false} RunWeighs(cfg: Config, states: seq<State>, acts: seq<Act>, t: nat)
    requires Run(cfg, states, acts) && t < |states|
    ensures states[t].sent <= cfg.Tasks() && Weighed(cfg, states[t])
  {
    hide Inv, Weighed, Harmed, Apply, Enabled, Init;
    if t == 0 {
      StartWeighs(cfg, states[0]);
    } else {
      RunWeighs(cfg, states, acts, t - 1);
      RunKeepsInv(cfg, states, acts, t - 1);
      HarmStays(cfg, states[t - 1], acts[t - 1]);
    }
  }

  lemma StartWeighs(cfg: Config, s: State)
    requires cfg.Valid() && Init(cfg, s)
    ensures s.sent <= cfg.Tasks() && Weighed(cfg, s)
  {
    NoMass(s.slaves);
    AllSent(cfg);
    hide TotalMass, SentSum;
  }

  // Harm done at t shows at the end.
  lemma {:induction false} HarmLasts(cfg: Config, states: seq<State>, acts: seq<Act>, t: nat, u: nat)
    requires Run(cfg, states, acts) && t <= u < |states| && states[t].sent <= cfg.Tasks() && Harmed(cfg, states[t])
    ensures states[u].sent <= cfg.Tasks() && Harmed(cfg, states[u])
  {
    hide Inv, Harmed, Weighed, Apply, Enabled, Init;
    if t < u {
      HarmLasts(cfg, states, acts, t, u - 1);
      RunKeepsInv(cfg, states, acts, u - 1);
      HarmStays(cfg, states[u - 1], acts[u - 1]);
    }
  }

  // A wrong answer at t spoils every run that goes on from it to its end.
  lemma WrongAnswerSpoils(cfg: Config, states: seq<State>, acts: seq<Act>, t: nat)
    requires Run(cfg, states, acts) && t < |acts| && !AnswersRight(cfg, states[t], acts[t])
    requires Finished(states[|acts|])
    ensures states[|acts|].sorted != Sort(cfg.input)
  {
    hide Inv, Weighed, Apply, AnswersRight, Sort, Init;
    RunKeepsInv(cfg, states, acts, t);
    RunWeighs(cfg, states, acts, t);
    WrongIsRunning(cfg, states[t], acts[t]);
    WrongAnswerHarms(cfg, states[t], acts[t].k);
    hide Harmed;
    HarmLasts(cfg, states, acts, t + 1, |acts|);
    OverIsHarmed(cfg, states[|acts|]);
  }

  lemma OverIsHarmed(cfg: Config, s: State)
    requires cfg.Valid() && s.sent <= cfg.Tasks() && Finished(s) && Harmed(cfg, s)
    ensures s.sorted != Sort(cfg.input)
  {
    hide Sort;
  }

  lemma WrongIsRunning(cfg: Config, s: State, act: Act)
    requires Inv(cfg, s) && !AnswersRight(cfg, s, act)
    ensures RunningInv(cfg, s) && act.SlaveReplies? && Enabled(cfg, s, act)
  {
    hide TotalLoad, TotalStoppers, StopChunks, SlaveInv, Ranked, Sort;
    if EndingInv(cfg, s) {
      NobodySorts(cfg, s, act.k);
    }
  }

  lemma {:induction false} RightAnswersKeepContent(cfg: Config, states: seq<State>, acts: seq<Act>, t: nat)
    requires Run(cfg, states, acts) && t < |states|
    requires forall u :: 0 <= u < t ==> AnswersRight(cfg, states[u], acts[u])
    ensures ContentInv(cfg, states[t])
  {
    hide Inv, ContentInv, AnswersRight, Apply, Enabled, Init;
    if t == 0 {
      InitHolds(cfg, states[0]);
    } else {
      RightAnswersKeepContent(cfg, states, acts, t - 1);
      RunKeepsInv(cfg, states, acts, t - 1);
      RightStepKeepsContent(cfg, states[t - 1], acts[t - 1]);
    }
  }

  // A run that gets to its end leaves the sorted input exactly when every answer in it is the sorted chunk.
  lemma RunSortsExactly(cfg: Config, states: seq<State>, acts: seq<Act>)
    requires Run(cfg, states, acts) && Finished(states[|acts|])
    ensures states[|acts|].sorted == Sort(cfg.input)
       <==> forall t :: 0 <= t < |acts| ==> AnswersRight(cfg, states[t], acts[t])
  {
    hide Run, AnswersRight, Sort, Init;
    RunSize(cfg, states, acts);
    if forall t :: 0 <= t < |acts| ==> AnswersRight(cfg, states[t], acts[t]) {
      RightAnswersKeepContent(cfg, states, acts, |acts|);
      SortUnique(cfg.input, states[|acts|].sorted);
    } else {
      var t :| 0 <= t < |acts| && !AnswersRight(cfg, states[t], acts[t]);
      WrongAnswerSpoils(cfg, states, acts, t);
    }
  }

  // ---------- the condition on the input ----------

  // The chunks a slave may have answered just before it gets chunk k: any earlier one, or, where there is
  // only one slave, the one before.
  predicate MayPrecede(cfg: Config, j: nat, k: nat) {
    j < k && (cfg.Slaves() == 1 ==> j == k - 1)
  }

  // A first chunk, sorted into an array with anything in it, must not repeat a value; a later one may, at
  // positions where every chunk that may precede it has the same value.
  ghost predicate RightFor(cfg: Config, k: nat)
    requires cfg.Valid() && k < cfg.Tasks()
  {
    if k < cfg.Slaves() then Distinct(cfg.Chunk(k))
    else forall j :: 0 <= j < k && MayPrecede(cfg, j, k) ==> Fills(cfg.Chunk(k), Sort(cfg.Chunk(j)))
  }

  ghost predicate RightBelow(cfg: Config, n: nat)
    requires cfg.Valid() && n <= cfg.Tasks()
  {
    forall k :: 0 <= k < n ==> RightFor(cfg, k)
  }

  // ---------- where the chunks are ----------

  // Slave c has chunk k, or is sorting it, over what a preceding chunk left.
  ghost predicate HasChunk(cfg: Config, s: State, c: nat, k: nat)
    requires cfg.Valid()
  {
    c < |s.slaves| && k < s.sent && k < cfg.Tasks() && (cfg.Slaves() == 1 ==> k == s.sent - 1)
    && var w := s.slaves[c];
    && w.outbox == []
    && ((w.work.Idle? && w.inbox == [cfg.Chunk(k)]) || (w.work == Sorting(cfg.Chunk(k)) && w.inbox == []))
    && |w.out| == cfg.size
    && (k < cfg.Slaves() || exists j :: 0 <= j < k && MayPrecede(cfg, j, k) && w.out == Sort(cfg.Chunk(j)))
  }

  // Slave c has answered chunk k, rightly, and has no other.
  ghost predicate HasAnswered(cfg: Config, s: State, c: nat, k: nat)
    requires cfg.Valid()
  {
    c < |s.slaves| && k < s.sent && k < cfg.Tasks() && (cfg.Slaves() == 1 ==> k == s.sent - 1)
    && var w := s.slaves[c];
    && w.work.Idle? && w.inbox == [] && (w.outbox == [] || w.outbox == [w.out]) && w.out == Sort(cfg.Chunk(k))
  }

  // Slave c has not been given a chunk yet.
  predicate IsFresh(cfg: Config, s: State, c: nat) {
    c < |s.slaves| && s.phase.Dispatch? && s.phase.next <= c && Ready(s.slaves[c]) && |s.slaves[c].out| == cfg.size
  }

  ghost predicate Placed(cfg: Config, s: State, c: nat)
    requires cfg.Valid()
  {
    IsFresh(cfg, s, c) || exists k :: 0 <= k < cfg.Tasks() && (HasChunk(cfg, s, c, k) || HasAnswered(cfg, s, c, k))
  }

  ghost predicate AllPlaced(cfg: Config, s: State)
    requires cfg.Valid()
  {
    !Over(s) ==> forall c :: 0 <= c < |s.slaves| ==> Placed(cfg, s, c)
  }

  // The sort of chunk k over what is in the array gives the sorted chunk.
  lemma ChunkAnswers(cfg: Config, s: State, c: nat, k: nat)
    requires cfg.Valid() && HasChunk(cfg, s, c, k) && RightFor(cfg, k)
    ensures Ranked(cfg.Chunk(k), s.slaves[c].out) == Sort(cfg.Chunk(k))
  {
    hide Ranked, Sort, Fills, Distinct, Config.Chunk;
    var w := s.slaves[c];
    if k < cfg.Slaves() {
      RankedSorts(cfg.Chunk(k), w.out);
    } else {
      var j :| 0 <= j < k && MayPrecede(cfg, j, k) && w.out == Sort(cfg.Chunk(j));
      RightExactlyWhenFilled(cfg.Chunk(k), w.out);
    }
  }

  // ---------- every step keeps the chunks in place ----------

  // A slave that no message reaches keeps its place.
  lemma OthersStay(cfg: Config, s: State, s': State, c: nat)
    requires cfg.Valid() && Placed(cfg, s, c) && c < |s.slaves| == |s'.slaves| && s'.slaves[c] == s.slaves[c]
    requires s.sent <= s'.sent && (cfg.Slaves() == 1 ==> s'.sent == s.sent)
    requires s.phase.Dispatch? && s.phase.next <= c ==> s'.phase.Dispatch? && s'.phase.next <= c
    ensures Placed(cfg, s', c)
  {
    hide Sort, Config.Chunk;
    if k :| 0 <= k < cfg.Tasks() && (HasChunk(cfg, s, c, k) || HasAnswered(cfg, s, c, k)) {
      assert HasChunk(cfg, s', c, k) || HasAnswered(cfg, s', c, k);
    }
  }

  // A slave that is ready gets the next chunk.
  lemma SentIsPlaced(cfg: Config, s: State, c: nat, phase: Phase)
    requires RunningInv(cfg, s) && c < |s.slaves| && Ready(s.slaves[c]) && s.sent < cfg.Tasks() && Placed(cfg, s, c)
    requires s.phase.Dispatch? ==> s.sent == c
    ensures HasChunk(cfg, SendChunk(cfg, s, c, phase), c, s.sent)
  {
    hide Sort, Config.Chunk, TotalLoad, TotalStoppers, StopChunks;
    var w := s.slaves[c];
    assert SlaveInv(cfg, w);
    hide SlaveInv;
    assert w.inbox + [cfg.Chunk(s.sent)] == [cfg.Chunk(s.sent)];
    if s.sent >= cfg.Slaves() {
      var j :| 0 <= j < cfg.Tasks() && (HasChunk(cfg, s, c, j) || HasAnswered(cfg, s, c, j));
      assert HasAnswered(cfg, s, c, j);
      assert MayPrecede(cfg, j, s.sent);
    }
  }

  lemma ReceivesIsPlaced(cfg: Config, s: State, c: nat)
    requires RunningInv(cfg, s) && Enabled(cfg, s, SlaveReceives(c)) && Placed(cfg, s, c) && HeadsAboveStop(cfg)
    ensures Placed(cfg, Apply(cfg, s, SlaveReceives(c)), c)
  {
    hide Sort, Config.Chunk, TotalLoad, TotalStoppers, StopChunks, SlaveInv;
    var k :| 0 <= k < cfg.Tasks() && (HasChunk(cfg, s, c, k) || HasAnswered(cfg, s, c, k));
    assert HasChunk(cfg, s, c, k);
    HeadOf(cfg, k);
    assert HasChunk(cfg, Apply(cfg, s, SlaveReceives(c)), c, k);
  }

  lemma RepliesIsPlaced(cfg: Config, s: State, c: nat)
    requires RunningInv(cfg, s) && Enabled(cfg, s, SlaveReplies(c)) && Placed(cfg, s, c) && RightBelow(cfg, s.sent)
    ensures AnswersRight(cfg, s, SlaveReplies(c))
    ensures Placed(cfg, Apply(cfg, s, SlaveReplies(c)), c)
  {
    hide Sort, Ranked, Config.Chunk, TotalLoad, TotalStoppers, StopChunks, SlaveInv, RightFor;
    var k :| 0 <= k < cfg.Tasks() && (HasChunk(cfg, s, c, k) || HasAnswered(cfg, s, c, k));
    assert HasChunk(cfg, s, c, k);
    ChunkAnswers(cfg, s, c, k);
    var m := Sort(cfg.Chunk(k));
    assert [] + [m] == [m];
    assert HasAnswered(cfg, Apply(cfg, s, SlaveReplies(c)), c, k);
  }

  lemma TakenIsPlaced(cfg: Config, s: State, c: nat)
    requires RunningInv(cfg, s) && Enabled(cfg, s, MasterReceives(c)) && Placed(cfg, s, c)
    ensures Placed(cfg, Apply(cfg, s, MasterReceives(c)), c)
  {
    hide Sort, Config.Chunk, TotalLoad, TotalStoppers, StopChunks, SlaveInv, Merging.Merged;
    var k :| 0 <= k < cfg.Tasks() && (HasChunk(cfg, s, c, k) || HasAnswered(cfg, s, c, k));
    assert HasAnswered(cfg, s, c, k);
    assert [s.slaves[c].out][1..] == [];
    assert HasAnswered(cfg, Apply(cfg, s, MasterReceives(c)), c, k);
  }

  lemma SendKeepsPlaces(cfg: Config, s: State, k: nat, phase: Phase)
    requires RunningInv(cfg, s) && AllPlaced(cfg, s) && k < |s.slaves| && Ready(s.slaves[k]) && s.sent < cfg.Tasks()
    requires s.phase.Dispatch? ==> s.phase == Dispatch(k) && phase == Dispatch(k + 1) && s.sent == k
    ensures AllPlaced(cfg, SendChunk(cfg, s, k, phase))
  {
    hide Placed, Config.Chunk, TotalLoad, TotalStoppers, StopChunks, SlaveInv, HasChunk;
    var s' := SendChunk(cfg, s, k, phase);
    forall c | 0 <= c < |s'.slaves| ensures Placed(cfg, s', c) {
      if c == k {
        SentIsPlaced(cfg, s, k, phase);
        AsPlaced(cfg, s', k, s.sent);
      } else {
        OthersStay(cfg, s, s', c);
      }
    }
  }

  lemma AsPlaced(cfg: Config, s: State, c: nat, k: nat)
    requires cfg.Valid() && HasChunk(cfg, s, c, k)
    ensures Placed(cfg, s, c)
  {
    assert k < cfg.Tasks();
  }

  lemma MasterKeepsPlaces(cfg: Config, s: State)
    requires RunningInv(cfg, s) && AllPlaced(cfg, s) && Enabled(cfg, s, MasterSteps)
    ensures AllPlaced(cfg, Apply(cfg, s, MasterSteps))
  {
    hide Placed, Config.Chunk, TotalLoad, TotalStoppers, StopChunks, SlaveInv, SendChunk;
    var s' := Apply(cfg, s, MasterSteps);
    match s.phase
    case Dispatch(k) =>
      if k < |s.slaves| {
        SendKeepsPlaces(cfg, s, k, Dispatch(k + 1));
      } else {
        forall c | 0 <= c < |s'.slaves| ensures Placed(cfg, s', c) { OthersStay(cfg, s, s', c); }
      }
    case Redispatch(k) =>
      if s.sent < cfg.Tasks() {
        SendKeepsPlaces(cfg, s, k, Gather);
      } else {
        forall c | 0 <= c < |s'.slaves| ensures Placed(cfg, s', c) { OthersStay(cfg, s, s', c); }
      }
    case _ =>
  }

  lemma SlaveKeepsPlaces(cfg: Config, s: State, act: Act)
    requires RunningInv(cfg, s) && AllPlaced(cfg, s) && Enabled(cfg, s, act) && !act.MasterSteps?
    requires HeadsAboveStop(cfg) && RightBelow(cfg, s.sent)
    ensures AllPlaced(cfg, Apply(cfg, s, act))
  {
    var s' := Apply(cfg, s, act);
    hide Placed, Config.Chunk, TotalLoad, TotalStoppers, StopChunks, SlaveInv, RightBelow, Ranked, Merging.Merged, HeadsAboveStop;
    forall c | 0 <= c < |s'.slaves| ensures Placed(cfg, s', c) {
      if c != act.k {
        OthersStay(cfg, s, s', c);
      } else {
        match act
        case SlaveReceives(k) => ReceivesIsPlaced(cfg, s, c);
        case SlaveReplies(k) => RepliesIsPlaced(cfg, s, c);
        case MasterReceives(k) => TakenIsPlaced(cfg, s, c);
      }
    }
  }

  // As long as the chunks sent are right, every step keeps every chunk in its place.
  lemma StepKeepsPlaces(cfg: Config, s: State, act: Act)
    requires Inv(cfg, s) && cfg.Valid() && s.sent <= cfg.Tasks() && Enabled(cfg, s, act) && AllPlaced(cfg, s)
    requires HeadsAboveStop(cfg) && RightBelow(cfg, s.sent)
    ensures AllPlaced(cfg, Apply(cfg, s, act))
    ensures AnswersRight(cfg, s, act)
  {
    hide RightBelow, HeadsAboveStop, Placed, Apply;
    SentFits(cfg, s);
    if Over(s) {
      hide AnswersRight;
      if !AnswersRight(cfg, s, act) { WrongIsRunning(cfg, s, act); }
      OverStays(cfg, s, act);
    } else {
      hide EndingInv, TotalLoad, TotalStoppers, StopChunks, SlaveInv, Ranked, Sort;
      if act.SlaveReplies? { RepliesIsPlaced(cfg, s, act.k); }
      if act.MasterSteps? { MasterKeepsPlaces(cfg, s); } else { SlaveKeepsPlaces(cfg, s, act); }
    }
  }

  lemma OverStays(cfg: Config, s: State, act: Act)
    requires Inv(cfg, s) && Over(s) && cfg.Valid() && Enabled(cfg, s, act)
    ensures Over(Apply(cfg, s, act))
  {
    hide TotalLoad, TotalStoppers, StopChunks, SlaveInv, Placed;
    EndingStays(cfg, s, act);
  }

  lemma StartIsPlaced(cfg: Config, s: State)
    requires cfg.Valid() && Init(cfg, s)
    ensures AllPlaced(cfg, s)
  {
  }

  lemma SentGrowsInRun(cfg: Config, s: State, act: Act)
    requires cfg.Valid() && Enabled(cfg, s, act)
    ensures s.sent <= Apply(cfg, s, act).sent <= s.sent + 1
  {
  }

  lemma RightBelowFewer(cfg: Config, m: nat, n: nat)
    requires cfg.Valid() && m <= n <= cfg.Tasks() && RightBelow(cfg, n)
    ensures RightBelow(cfg, m)
  {
  }

  // Up to the first chunk that is not right, in every run.
  lemma {:induction false} RunKeepsPlaces(cfg: Config, states: seq<State>, acts: seq<Act>, t: nat, n: nat)
    requires Run(cfg, states, acts) && t < |states| && n <= cfg.Tasks()
    requires HeadsAboveStop(cfg) && RightBelow(cfg, n) && states[t].sent <= n
    ensures AllPlaced(cfg, states[t])
    ensures forall u :: 0 <= u < t ==> AnswersRight(cfg, states[u], acts[u])
  {
    hide Inv, AllPlaced, Apply, Enabled, Init, RightBelow, HeadsAboveStop, AnswersRight;
    if t == 0 {
      StartIsPlaced(cfg, states[0]);
    } else {
      SentGrowsInRun(cfg, states[t - 1], acts[t - 1]);
      RunKeepsPlaces(cfg, states, acts, t - 1, n);
      RunKeepsInv(cfg, states, acts, t - 1);
      RightBelowFewer(cfg, states[t - 1].sent, n);
      StepKeepsPlaces(cfg, states[t - 1], acts[t - 1]);
    }
  }

  // If every chunk is right, so is every run.
  lemma RightSortsIn(cfg: Config, states: seq<State>, acts: seq<Act>)
    requires cfg.Valid() && HeadsAboveStop(cfg) && RightBelow(cfg, cfg.Tasks())
    ensures SortsIn(cfg, states, acts)
  {
    hide AnswersRight, Sort, Init, RightBelow, HeadsAboveStop, Finished;
    if Run(cfg, states, acts) && Finished(states[|acts|]) {
      RunKeepsInv(cfg, states, acts, |acts|);
      SentFits(cfg, states[|acts|]);
      RunKeepsPlaces(cfg, states, acts, |acts|, cfg.Tasks());
      RunSortsExactly(cfg, states, acts);
    }
  }
}
