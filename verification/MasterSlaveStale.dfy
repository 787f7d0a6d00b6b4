// What a repeated value can do to the whole farm (PPD/MPI/T1/master-slave.c): a cell that the rank sort
// leaves unwritten goes back to the master with whatever the slave's output array held before.
module MasterSlaveStale {
  import opened SortSpec
  import opened Merging
  import opened RankSort
  import opened MasterSlave
  import opened MasterSlaveProof
  import opened MasterSlaveRuns

  // The output array of a slave holds nothing but z.
  predicate AllStale(w: Slave, z: int) {
    forall i :: 0 <= i < |w.out| ==> w.out[i] == z
  }

  // Slave c is on the way to give back a z: its first chunk is not sent yet, on its way, being sorted,
  // or sorted with the z in it.
  ghost predicate OnItsWay(cfg: Config, s: State, c: nat, z: int)
    requires cfg.Valid() && c < cfg.Tasks()
  {
    c < |s.slaves| && var w := s.slaves[c];
    || (s.phase.Dispatch? && s.phase.next <= c && Ready(w) && AllStale(w, z))
    || (w.work.Idle? && w.inbox == [cfg.Chunk(c)] && w.outbox == [] && AllStale(w, z))
    || (w.work == Sorting(cfg.Chunk(c)) && w.inbox == [] && w.outbox == [] && AllStale(w, z))
    || (w.work.Idle? && w.inbox == [] && |w.outbox| == 1 && z in w.outbox[0])
  }

  ghost predicate Tainted(cfg: Config, s: State, c: nat, z: int)
    requires cfg.Valid() && c < cfg.Tasks()
  {
    z in s.sorted || OnItsWay(cfg, s, c, z)
  }

  // A chunk with a repeated value leaves a z of the prior contents in its output.
  lemma StaleInRanked(v: seq<int>, prior: seq<int>, z: int)
    requires |v| == |prior| && !Distinct(v) && forall i :: 0 <= i < |prior| ==> prior[i] == z
    ensures z in Ranked(v, prior)
  {
    var a, b :| 0 <= a < b < |v| && v[a] == v[b];
    var k := DuplicatesLeaveACell(v, a, b);
    UnwrittenCell(v, prior, |v|, k);
    assert Ranked(v, prior)[k] == z;
  }

  // ---------- every step keeps the z in play ----------

  // The chunk of the slave's next step is the c-th one and has a repeated value.
  lemma SlaveStepKeeps(cfg: Config, s: State, c: nat, z: int, act: Act)
    requires RunningInv(cfg, s) && c < cfg.Tasks() && Enabled(cfg, s, act) && (act.SlaveReceives? || act.SlaveReplies?)
    requires !Distinct(cfg.Chunk(c)) && cfg.Chunk(c)[0] > STOP && OnItsWay(cfg, s, c, z)
    ensures OnItsWay(cfg, Apply(cfg, s, act), c, z)
  {
    hide TotalLoad, TotalStoppers, StopChunks, SlaveInv, Ranked, Distinct, Load;
    var w := s.slaves[c];
    if act.k == c && act.SlaveReplies? {
      StaleInRanked(w.work.chunk, w.out, z);
    }
  }

  lemma SendKeeps(cfg: Config, s: State, c: nat, z: int)
    requires RunningInv(cfg, s) && c < cfg.Slaves() && c < cfg.Tasks() && Enabled(cfg, s, MasterSteps)
    requires OnItsWay(cfg, s, c, z)
    ensures OnItsWay(cfg, Apply(cfg, s, MasterSteps), c, z)
  {
    hide TotalLoad, TotalStoppers, StopChunks, SlaveInv, Config.Chunk;
    if s.phase.Dispatch? && s.phase.next == c {
      assert Ready(s.slaves[c]);
      assert s.slaves[c].inbox + [cfg.Chunk(c)] == [cfg.Chunk(c)];
    }
  }

  // The master takes the z, or keeps what it has.
  lemma ReceiveKeepsTaint(cfg: Config, s: State, c: nat, z: int, k: nat)
    requires RunningInv(cfg, s) && c < cfg.Tasks() && Enabled(cfg, s, MasterReceives(k)) && Tainted(cfg, s, c, z)
    ensures Tainted(cfg, Apply(cfg, s, MasterReceives(k)), c, z)
  {
    hide TotalLoad, TotalStoppers, StopChunks, SlaveInv, AllStale, Merged, Config.Chunk;
    MergedHolds(s.sorted, s.slaves[k].outbox[0], z);
    if s.received == 0 {
      assert s.sorted == [];
    }
  }

  // While the slaves are stopped nothing is on its way.
  lemma EndingIsDecided(cfg: Config, s: State, c: nat, z: int)
    requires EndingInv(cfg, s) && c < cfg.Tasks() && cfg.Chunk(c)[0] > STOP && Tainted(cfg, s, c, z)
    ensures z in s.sorted
  {
    hide StopChunks, AllStale, Config.Chunk;
    assert c < |s.slaves| ==> Told(cfg, s.slaves[c]) || Ready(s.slaves[c]);
  }

  lemma EndingKeepsSorted(cfg: Config, s: State, act: Act)
    requires EndingInv(cfg, s) && Enabled(cfg, s, act)
    ensures Apply(cfg, s, act).sorted == s.sorted
  {
    hide StopChunks;
  }

  lemma StepKeepsTaint(cfg: Config, s: State, c: nat, z: int, act: Act)
    requires Inv(cfg, s) && cfg.Valid() && c < cfg.Slaves() && c < cfg.Tasks() && Enabled(cfg, s, act)
    requires !Distinct(cfg.Chunk(c)) && cfg.Chunk(c)[0] > STOP && Tainted(cfg, s, c, z)
    ensures Tainted(cfg, Apply(cfg, s, act), c, z)
  {
    hide Apply, Enabled, OnItsWay, RunningInv, EndingInv, Distinct, Config.Chunk;
    if EndingInv(cfg, s) {
      EndingIsDecided(cfg, s, c, z);
      EndingKeepsSorted(cfg, s, act);
    } else if act.MasterReceives? {
      ReceiveKeepsTaint(cfg, s, c, z, act.k);
    } else if z in s.sorted {
      SortedStays(cfg, s, act);
    } else if act.MasterSteps? {
      SendKeeps(cfg, s, c, z);
    } else {
      SlaveStepKeeps(cfg, s, c, z, act);
    }
  }

  lemma SortedStays(cfg: Config, s: State, act: Act)
    requires cfg.Valid() && Enabled(cfg, s, act) && !act.MasterReceives?
    ensures Apply(cfg, s, act).sorted == s.sorted
  {
  }

  // ---------- whole runs ----------

  // All output arrays start with nothing but z.
  ghost predicate StaleStart(s: State, z: int) {
    forall k :: 0 <= k < |s.slaves| ==> AllStale(s.slaves[k], z)
  }

  lemma StartIsTainted(cfg: Config, s: State, c: nat, z: int)
    requires cfg.Valid() && Init(cfg, s) && StaleStart(s, z) && c < cfg.Slaves() && c < cfg.Tasks()
    ensures Tainted(cfg, s, c, z)
  {
    hide AllStale, Config.Chunk;
  }

  lemma {:induction false} RunKeepsTaint(cfg: Config, states: seq<State>, acts: seq<Act>, t: nat, c: nat, z: int)
    requires Run(cfg, states, acts) && t < |states| && StaleStart(states[0], z)
    requires c < cfg.Slaves() && c < cfg.Tasks() && !Distinct(cfg.Chunk(c)) && cfg.Chunk(c)[0] > STOP
    ensures Tainted(cfg, states[t], c, z)
  {
    hide Apply, Enabled, Tainted, Distinct, Inv, Config.Chunk, StaleStart, Init;
    if t == 0 {
      StartIsTainted(cfg, states[0], c, z);
    } else {
      RunKeepsTaint(cfg, states, acts, t - 1, c, z);
      RunKeepsInv(cfg, states, acts, t - 1);
      StepKeepsTaint(cfg, states[t - 1], c, z, acts[t - 1]);
    }
  }

  // One of the first chunks, one for each slave, holds a repeated value: with the output arrays full of
  // a value z that is no input, whatever is done in whatever order, the result of a run that gets to
  // its end holds a z, and is not the sorted input.
  lemma RepeatedValueSpoils(cfg: Config, states: seq<State>, acts: seq<Act>, t: nat, c: nat, z: int)
    requires Run(cfg, states, acts) && t < |states| && StaleStart(states[0], z) && z !in cfg.input
    requires c < cfg.Slaves() && c < cfg.Tasks() && !Distinct(cfg.Chunk(c)) && cfg.Chunk(c)[0] > STOP
    requires states[t].phase.Stop? || states[t].phase.Done?
    ensures z in states[t].sorted && states[t].sorted != Sort(cfg.input)
  {
    hide Run, Distinct, Tainted, Config.Chunk, Sort, StaleStart, StopChunks, TotalLoad, TotalStoppers;
    RunKeepsInv(cfg, states, acts, t);
    RunKeepsTaint(cfg, states, acts, t, c, z);
    EndingIsDecided(cfg, states[t], c, z);
    SortIsSortedPermutation(cfg.input);
    assert z !in multiset(cfg.input);
    assert z in multiset(states[t].sorted);
  }

  // ---------- there are such runs ----------

  // A run can be carried on to its end.
  lemma {:induction false} Complete(cfg: Config, states: seq<State>, acts: seq<Act>)
    returns (all: seq<State>, done: seq<Act>)
    requires Run(cfg, states, acts) && HeadsAboveStop(cfg)
    ensures Run(cfg, all, done) && all[0] == states[0] && Finished(all[|done|])
    ensures |states| <= |all| && all[..|states|] == states
    decreases Left(cfg, states[|acts|])
  {
    hide Inv, Apply, Enabled, Finished, Left, StopChunks, Init;
    var s := states[|acts|];
    RunKeepsInv(cfg, states, acts, |acts|);
    if Finished(s) {
      all, done := states, acts;
    } else {
      StopChunksCount(cfg, cfg.Tasks());
      var act := NeverStuck(cfg, s);
      NoBufferIsEnabled(cfg, s, act);
      RunLength(cfg, states, acts, |acts|);
      StepProgresses(cfg, s, act);
      all, done := Complete(cfg, states + [Apply(cfg, s, act)], acts + [act]);
    }
  }

  // An input whose chunks start above STOP, with a repeated value in one of the first ones, has a start
  // and a run to the end that leaves it unsorted.
  lemma FarmFails(cfg: Config, c: nat, z: int) returns (all: seq<State>, done: seq<Act>)
    requires cfg.Valid() && HeadsAboveStop(cfg) && c < cfg.Slaves() && c < cfg.Tasks()
    requires !Distinct(cfg.Chunk(c)) && z !in cfg.input
    ensures Run(cfg, all, done) && Finished(all[|done|]) && all[|done|].sorted != Sort(cfg.input)
  {
    var w := Slave(Idle, [], [], seq(cfg.size, _ => z));
    var s := State(Dispatch(0), 0, 0, 0, [], seq(cfg.Slaves(), _ => w));
    assert Run(cfg, [s], []);
    hide Run, Distinct, Sort, Finished, HeadsAboveStop;
    assert StaleStart(s, z);
    assert cfg.Chunk(c)[0] > STOP by { HeadOf(cfg, c); }
    all, done := Complete(cfg, [s], []);
    RunSize(cfg, all, done);
    FinishedIsDone(all[|done|]);
    RepeatedValueSpoils(cfg, all, done, |done|, c, z);
  }

  // A value above all of s.
  function Above(s: seq<int>): (z: int)
    ensures z !in s
    ensures forall x :: x in s ==> x < z
  {
    if s == [] then 0
    else var z := Above(s[1..]); assert s == [s[0]] + s[1..]; if s[0] < z then z else s[0] + 1
  }

  // Not every repeated value does harm: the array may hold the right value already.
  lemma UnharmedRepeat()
    ensures !Distinct([1, 1]) && Ranked([1, 1], [0, 1]) == Sort([1, 1])
  {
    RankIsIndex([1, 1], 0);
    RankIsIndex([1, 1], 1);
    assert [1, 1][0] == [1, 1][1];
    assert CountBelow([1, 1], 1) == 0;
    assert RankedUpTo([1, 1], [0, 1], 1) == [1, 1];
    assert Ranked([1, 1], [0, 1]) == [1, 1];
    SortUnique([1, 1], [1, 1]);
  }

  // If this is a run to the end, its result is the sorted input.
  ghost predicate SortsIn(cfg: Config, states: seq<State>, acts: seq<Act>) {
    Run(cfg, states, acts) && Finished(states[|acts|]) ==> states[|acts|].sorted == Sort(cfg.input)
  }

  ghost predicate FarmSorts(cfg: Config) {
    forall states: seq<State>, acts: seq<Act> :: SortsIn(cfg, states, acts)
  }

  lemma HeadOf(cfg: Config, c: nat)
    requires cfg.Valid() && HeadsAboveStop(cfg) && c < cfg.Tasks()
    ensures cfg.Chunk(c)[0] > STOP
  {}

  lemma RunSize(cfg: Config, states: seq<State>, acts: seq<Act>)
    requires Run(cfg, states, acts)
    ensures |states| == |acts| + 1 && cfg.Valid()
  {}

  lemma FinishedIsDone(s: State)
    requires Finished(s)
    ensures s.phase.Done?
  {}
}
