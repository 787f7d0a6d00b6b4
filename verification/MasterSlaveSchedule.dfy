// The farm's orders of work (PPD/MPI/T1/master-slave.c): any chunk may be given to the slave that has just
// answered any chunk that may precede it, so that a chunk which is not right has a run that shows it.
module MasterSlaveSchedule {
  import opened SortSpec
  import opened RankSort
  import opened MasterSlave
  import opened MasterSlaveProof
  import opened MasterSlaveRuns
  import opened MasterSlaveStale
  import opened MasterSlaveMass
  import opened MasterSlaveExact

  // One step more.
  lemma Longer(cfg: Config, states: seq<State>, acts: seq<Act>, act: Act)
    requires Run(cfg, states, acts) && Enabled(cfg, states[|acts|], act)
    ensures Run(cfg, states + [Apply(cfg, states[|acts|], act)], acts + [act])
  {
    hide Apply, Enabled, Init;
  }

  // Chunk k is on its way to slave c, which has nothing else.
  predicate Waits(cfg: Config, s: State, c: nat, k: nat)
    requires cfg.Valid() && k < cfg.Tasks()
  {
    c < |s.slaves| && s.slaves[c].work.Idle? && s.slaves[c].inbox == [cfg.Chunk(k)] && s.slaves[c].outbox == []
  }

  // The state of an even round: the master gathers, and slave c waits for chunk k.
  predicate Even(cfg: Config, s: State, c: nat, k: nat)
    requires cfg.Valid() && k < cfg.Tasks()
  {
    s.phase.Gather? && s.open > 0 && Waits(cfg, s, c, k)
  }

  // Slave c takes its chunk.
  function Taken(cfg: Config, s: State, c: nat, k: nat): State
    requires cfg.Valid() && k < cfg.Tasks() && c < |s.slaves|
  {
    s.(slaves := s.slaves[c := s.slaves[c].(work := Sorting(cfg.Chunk(k)), inbox := [])])
  }

  lemma TakesIt(cfg: Config, s: State, c: nat, k: nat)
    requires cfg.Valid() && k < cfg.Tasks() && Even(cfg, s, c, k) && cfg.Chunk(k)[0] > STOP
    ensures Enabled(cfg, s, SlaveReceives(c)) && Apply(cfg, s, SlaveReceives(c)) == Taken(cfg, s, c, k)
  {
    hide Config.Chunk;
    assert [cfg.Chunk(k)][1..] == [];
  }

  // And answers, and the master takes the answer and sends the next chunk.
  function Answered(cfg: Config, s: State, c: nat, m: seq<int>): State
    requires c < |s.slaves|
  {
    s.(slaves := s.slaves[c := s.slaves[c].(work := Idle, inbox := [], out := m, outbox := [m])])
  }

  lemma AnswersIt(cfg: Config, s: State, c: nat, k: nat)
    requires RunningInv(cfg, s) && k < cfg.Tasks() && Even(cfg, s, c, k)
    ensures |s.slaves[c].out| == |cfg.Chunk(k)|
    ensures var t, m := Taken(cfg, s, c, k), Ranked(cfg.Chunk(k), s.slaves[c].out);
      Enabled(cfg, t, SlaveReplies(c)) && Apply(cfg, t, SlaveReplies(c)) == Answered(cfg, s, c, m)
  {
    hide Config.Chunk, Ranked, TotalLoad, TotalStoppers, StopChunks;
    assert SlaveInv(cfg, s.slaves[c]);
    var m := Ranked(cfg.Chunk(k), s.slaves[c].out);
    assert [] + [m] == [m];
  }

  // The whole turn, but for what the master makes of the answer.
  predicate Turned(cfg: Config, s: State, r: State, c: nat, m: seq<int>)
    requires cfg.Valid() && s.sent < cfg.Tasks()
  {
    && c < |s.slaves| == |r.slaves| && r.sent == s.sent + 1 && Even(cfg, r, c, s.sent)
    && r.slaves == s.slaves[c := r.slaves[c]] && r.slaves[c].out == m
  }

  lemma MasterTurns(cfg: Config, s: State, c: nat, m: seq<int>)
    requires cfg.Valid() && s.sent < cfg.Tasks() && s.phase.Gather? && s.open > 0 && c < |s.slaves|
    ensures var u := Answered(cfg, s, c, m);
      && Enabled(cfg, u, MasterReceives(c))
      && var v := Apply(cfg, u, MasterReceives(c));
         Enabled(cfg, v, MasterSteps) && Turned(cfg, s, Apply(cfg, v, MasterSteps), c, m)
  {
    hide Config.Chunk, Merging.Merged;
    assert [m][1..] == [];
    assert [] + [cfg.Chunk(s.sent)] == [cfg.Chunk(s.sent)];
    var u := Answered(cfg, s, c, m);
    var v := Apply(cfg, u, MasterReceives(c));
    assert v.slaves == s.slaves[c := s.slaves[c].(work := Idle, inbox := [], out := m, outbox := [])];
    var r := Apply(cfg, v, MasterSteps);
    assert r.slaves == s.slaves[c := r.slaves[c]];
  }

  // A run whose last state is even for slave c and chunk k goes on to one in which c waits for the next chunk.
  lemma Turn(cfg: Config, states: seq<State>, acts: seq<Act>, c: nat, k: nat)
    returns (more: seq<State>, done: seq<Act>)
    requires Run(cfg, states, acts) && HeadsAboveStop(cfg) && k < cfg.Tasks()
    requires Even(cfg, states[|acts|], c, k) && states[|acts|].sent < cfg.Tasks()
    ensures Run(cfg, more, done) && |states[|acts|].slaves[c].out| == |cfg.Chunk(k)|
    ensures Turned(cfg, states[|acts|], more[|done|], c, Ranked(cfg.Chunk(k), states[|acts|].slaves[c].out))
  {
    var s := states[|acts|];
    RunKeepsInv(cfg, states, acts, |acts|);
    SentFits(cfg, s);
    assert !Over(s);
    HeadOf(cfg, k);
    hide Run, Inv, RunningInv, EndingInv, ContentInv, HeadsAboveStop, Config.Chunk, Enabled, Apply, Taken, Answered, Turned, Ranked, DistinctChunks;
    TakesIt(cfg, s, c, k);
    AnswersIt(cfg, s, c, k);
    var m := Ranked(cfg.Chunk(k), s.slaves[c].out);
    MasterTurns(cfg, s, c, m);
    Longer(cfg, states, acts, SlaveReceives(c));
    var t := Taken(cfg, s, c, k);
    RunSize(cfg, states, acts);
    Longer(cfg, states + [t], acts + [SlaveReceives(c)], SlaveReplies(c));
    var u := Answered(cfg, s, c, m);
    Longer(cfg, states + [t] + [u], acts + [SlaveReceives(c)] + [SlaveReplies(c)], MasterReceives(c));
    var v := Apply(cfg, u, MasterReceives(c));
    more := states + [t] + [u] + [v] + [Apply(cfg, v, MasterSteps)];
    done := acts + [SlaveReceives(c)] + [SlaveReplies(c)] + [MasterReceives(c)] + [MasterSteps];
    Longer(cfg, states + [t] + [u] + [v], acts + [SlaveReceives(c)] + [SlaveReplies(c)] + [MasterReceives(c)], MasterSteps);
  }

  // Slave c takes turns until goal chunks are sent; the other slaves stand still.
  lemma {:induction false} TurnsUntil(cfg: Config, states: seq<State>, acts: seq<Act>, c: nat, k: nat, goal: nat)
    returns (more: seq<State>, done: seq<Act>)
    requires Run(cfg, states, acts) && HeadsAboveStop(cfg) && k < cfg.Tasks() && goal <= cfg.Tasks()
    requires Even(cfg, states[|acts|], c, k) && 1 <= states[|acts|].sent <= goal
    ensures Run(cfg, more, done)
    ensures var s, r := states[|acts|], more[|done|];
      && |r.slaves| == |s.slaves| && r.sent == goal && Even(cfg, r, c, if goal == s.sent then k else goal - 1)
      && forall i :: 0 <= i < |s.slaves| && i != c ==> r.slaves[i] == s.slaves[i]
    decreases goal - states[|acts|].sent
  {
    RunSize(cfg, states, acts);
    hide Run, HeadsAboveStop, Config.Chunk, Ranked, Waits;
    if states[|acts|].sent == goal {
      more, done := states, acts;
    } else {
      var s := states[|acts|];
      var t, ts := Turn(cfg, states, acts, c, k);
      more, done := TurnsUntil(cfg, t, ts, c, s.sent, goal);
    }
  }

  // ---------- the first chunks ----------

  // The first i chunks are sent, one to each of the first i slaves.
  ghost predicate Dealt(cfg: Config, s: State, i: nat)
    requires cfg.Valid()
  {
    && s.phase == Dispatch(i) && s.sent == s.open == i <= |s.slaves| == cfg.Slaves()
    && (forall c :: 0 <= c < i ==> Waits(cfg, s, c, c))
    && (forall c :: i <= c < |s.slaves| ==> Ready(s.slaves[c]))
  }

  lemma DealOne(cfg: Config, s: State, i: nat)
    requires cfg.Valid() && Dealt(cfg, s, i) && i < cfg.Slaves()
    ensures Enabled(cfg, s, MasterSteps) && Dealt(cfg, Apply(cfg, s, MasterSteps), i + 1)
  {
    hide Config.Chunk;
    assert Ready(s.slaves[i]);
    assert s.slaves[i].inbox + [cfg.Chunk(i)] == [cfg.Chunk(i)];
    var r := Apply(cfg, s, MasterSteps);
    forall c | 0 <= c < i + 1 ensures Waits(cfg, r, c, c) {
      assert c < i ==> Waits(cfg, s, c, c);
    }
    forall c | i + 1 <= c < |r.slaves| ensures Ready(r.slaves[c]) {
      assert Ready(s.slaves[c]);
    }
  }

  lemma {:induction false} Deal(cfg: Config, states: seq<State>, acts: seq<Act>, i: nat)
    returns (more: seq<State>, done: seq<Act>)
    requires Run(cfg, states, acts) && i <= cfg.Slaves() && Dealt(cfg, states[|acts|], i)
    ensures Run(cfg, more, done) && Dealt(cfg, more[|done|], cfg.Slaves())
    decreases cfg.Slaves() - i
  {
    RunSize(cfg, states, acts);
    hide Run, Dealt, Apply, Enabled;
    if i == cfg.Slaves() {
      more, done := states, acts;
    } else {
      DealOne(cfg, states[|acts|], i);
      Longer(cfg, states, acts, MasterSteps);
      more, done := Deal(cfg, states + [Apply(cfg, states[|acts|], MasterSteps)], acts + [MasterSteps], i + 1);
    }
  }

  lemma StartsGathering(cfg: Config, s: State)
    requires cfg.Valid() && Dealt(cfg, s, cfg.Slaves())
    ensures Enabled(cfg, s, MasterSteps)
    ensures var r := Apply(cfg, s, MasterSteps);
      && |r.slaves| == cfg.Slaves() && r.sent == cfg.Slaves() >= 1
      && forall c :: 0 <= c < cfg.Slaves() ==> Even(cfg, r, c, c)
  {
    hide Config.Chunk;
    var r := Apply(cfg, s, MasterSteps);
    forall c | 0 <= c < cfg.Slaves() ensures Even(cfg, r, c, c) {
      assert Waits(cfg, s, c, c);
    }
  }

  // All slaves wait for their first chunks.
  lemma FirstChunks(cfg: Config) returns (states: seq<State>, acts: seq<Act>)
    requires cfg.Valid()
    ensures Run(cfg, states, acts)
    ensures var r := states[|acts|];
      && |r.slaves| == cfg.Slaves() && r.sent == cfg.Slaves() >= 1
      && forall c :: 0 <= c < cfg.Slaves() ==> Even(cfg, r, c, c)
  {
    var w := Slave(Idle, [], [], seq(cfg.size, _ => 0));
    var s := State(Dispatch(0), 0, 0, 0, [], seq(cfg.Slaves(), _ => w));
    assert Run(cfg, [s], []) && Dealt(cfg, s, 0);
    hide Run, Dealt, Apply, Enabled, Even;
    var t, ts := Deal(cfg, [s], [], 0);
    StartsGathering(cfg, t[|ts|]);
    RunSize(cfg, t, ts);
    Longer(cfg, t, ts, MasterSteps);
    states, acts := t + [Apply(cfg, t[|ts|], MasterSteps)], ts + [MasterSteps];
  }

  // ---------- a chunk after one that may precede it ----------

  // Where every chunk sent is right, a slave answers rightly.
  lemma WaitingAnswersRight(cfg: Config, s: State, c: nat, k: nat)
    requires RunningInv(cfg, s) && k < cfg.Tasks() && Even(cfg, s, c, k) && AllPlaced(cfg, s) && RightBelow(cfg, s.sent)
    ensures |s.slaves[c].out| == |cfg.Chunk(k)| && Ranked(cfg.Chunk(k), s.slaves[c].out) == Sort(cfg.Chunk(k))
  {
    hide Config.Chunk, Ranked, Sort, TotalLoad, TotalStoppers, StopChunks, SlaveInv, RightFor;
    assert Placed(cfg, s, c);
    var i :| 0 <= i < cfg.Tasks() && (HasChunk(cfg, s, c, i) || HasAnswered(cfg, s, c, i));
    assert HasChunk(cfg, s, c, i);
    assert [cfg.Chunk(i)][0] == [cfg.Chunk(k)][0];
    ChunkAnswers(cfg, s, c, i);
  }

  // A run in which some slave waits for chunk j when chunk k is the next to be sent.
  lemma Prepared(cfg: Config, j: nat, k: nat) returns (states: seq<State>, acts: seq<Act>, c: nat)
    requires cfg.Valid() && HeadsAboveStop(cfg) && cfg.Slaves() <= k < cfg.Tasks() && MayPrecede(cfg, j, k)
    ensures Run(cfg, states, acts) && Even(cfg, states[|acts|], c, j) && states[|acts|].sent == k
  {
    hide Run, HeadsAboveStop, Config.Chunk, Config.Tasks;
    var t, ts := FirstChunks(cfg);
    RunSize(cfg, t, ts);
    var first := t[|ts|];
    assert cfg.Slaves() < cfg.Tasks();
    c := if j < cfg.Slaves() then j else 0;
    assert Even(cfg, first, c, c);
    var d := if c == 0 then 1 else 0;
    assert d < cfg.Slaves() ==> Even(cfg, first, d, d);
    states, acts := t, ts;
    if j >= cfg.Slaves() {
      states, acts := TurnsUntil(cfg, t, ts, 0, 0, j + 1);
      RunSize(cfg, states, acts);
      assert d < cfg.Slaves() ==> states[|acts|].slaves[d] == first.slaves[d];
    }
    var s := states[|acts|];
    assert Even(cfg, s, c, j);
    if s.sent < k {
      assert d < cfg.Slaves();
      assert Even(cfg, s, d, d);
      states, acts := TurnsUntil(cfg, states, acts, d, d, k);
      RunSize(cfg, states, acts);
      assert states[|acts|].slaves[c] == s.slaves[c];
    }
  }

  // A run in which some slave waits for chunk k over its right answer to chunk j.
  lemma Follows(cfg: Config, j: nat, k: nat) returns (states: seq<State>, acts: seq<Act>, c: nat)
    requires cfg.Valid() && HeadsAboveStop(cfg) && cfg.Slaves() <= k < cfg.Tasks() && MayPrecede(cfg, j, k)
    requires RightBelow(cfg, k)
    ensures Run(cfg, states, acts) && Even(cfg, states[|acts|], c, k)
    ensures states[|acts|].slaves[c].out == Sort(cfg.Chunk(j))
  {
    var t, ts, d := Prepared(cfg, j, k);
    var s := t[|ts|];
    hide Run, HeadsAboveStop, Config.Chunk, RightBelow, AllPlaced, RunningInv, EndingInv, ContentInv, DistinctChunks, Ranked, Sort, Waits;
    RunKeepsInv(cfg, t, ts, |ts|);
    SentFits(cfg, s);
    RunKeepsPlaces(cfg, t, ts, |ts|, k);
    WaitingAnswersRight(cfg, s, d, j);
    states, acts := Turn(cfg, t, ts, d, j);
    c := d;
  }

  // A chunk that is not right, all earlier ones being right, has a run to the end that leaves the input
  // unsorted.
  lemma NotFilledFails(cfg: Config, j: nat, k: nat) returns (all: seq<State>, done: seq<Act>)
    requires cfg.Valid() && HeadsAboveStop(cfg) && cfg.Slaves() <= k < cfg.Tasks() && MayPrecede(cfg, j, k)
    requires RightBelow(cfg, k) && !Fills(cfg.Chunk(k), Sort(cfg.Chunk(j)))
    ensures Run(cfg, all, done) && Finished(all[|done|]) && all[|done|].sorted != Sort(cfg.input)
  {
    var t, ts, c := Follows(cfg, j, k);
    var s := t[|ts|];
    RunKeepsInv(cfg, t, ts, |ts|);
    SentFits(cfg, s);
    assert !Over(s);
    HeadOf(cfg, k);
    RunSize(cfg, t, ts);
    hide Run, HeadsAboveStop, Config.Chunk, RightBelow, RunningInv, EndingInv, ContentInv, DistinctChunks, Ranked,
         Sort, Waits, Enabled, Apply, Taken, Answered, Fills, Finished;
    TakesIt(cfg, s, c, k);
    AnswersIt(cfg, s, c, k);
    RightExactlyWhenFilled(cfg.Chunk(k), s.slaves[c].out);
    var u := Taken(cfg, s, c, k);
    assert !AnswersRight(cfg, u, SlaveReplies(c)) by { TakenIsWrong(cfg, s, c, k); }
    hide AnswersRight;
    Longer(cfg, t, ts, SlaveReceives(c));
    var t1, ts1 := t + [u], ts + [SlaveReceives(c)];
    Longer(cfg, t1, ts1, SlaveReplies(c));
    var t2, ts2 := t1 + [Apply(cfg, u, SlaveReplies(c))], ts1 + [SlaveReplies(c)];
    all, done := Complete(cfg, t2, ts2);
    RunSize(cfg, all, done);
    AfterWrong(cfg, t1, ts1, c, all, done);
  }

  lemma TakenIsWrong(cfg: Config, s: State, c: nat, k: nat)
    requires cfg.Valid() && k < cfg.Tasks() && Even(cfg, s, c, k) && |s.slaves[c].out| == |cfg.Chunk(k)|
    requires Enabled(cfg, Taken(cfg, s, c, k), SlaveReplies(c))
    requires Ranked(cfg.Chunk(k), s.slaves[c].out) != Sort(cfg.Chunk(k))
    ensures !AnswersRight(cfg, Taken(cfg, s, c, k), SlaveReplies(c))
  {
    hide Ranked, Sort, Config.Chunk;
  }

  // What goes on from a wrong answer does not end well.
  lemma AfterWrong(cfg: Config, t1: seq<State>, ts1: seq<Act>, c: nat, all: seq<State>, done: seq<Act>)
    requires Run(cfg, t1, ts1) && !AnswersRight(cfg, t1[|ts1|], SlaveReplies(c)) && Enabled(cfg, t1[|ts1|], SlaveReplies(c))
    requires var t2 := t1 + [Apply(cfg, t1[|ts1|], SlaveReplies(c))];
      Run(cfg, all, done) && |t2| <= |all| && all[..|t2|] == t2
    requires Finished(all[|done|])
    ensures all[|done|].sorted != Sort(cfg.input)
  {
    hide Inv, Weighed, Harmed, AnswersRight, Sort, Init, Apply, Enabled, Finished;
    var n := |ts1|;
    var u, v := t1[n], Apply(cfg, t1[n], SlaveReplies(c));
    RunKeepsInv(cfg, t1, ts1, n);
    RunWeighs(cfg, t1, ts1, n);
    WrongIsRunning(cfg, u, SlaveReplies(c));
    WrongAnswerHarms(cfg, u, c);
    assert all[n + 1] == v;
    HarmLasts(cfg, all, done, n + 1, |done|);
    OverIsHarmed(cfg, all[|done|]);
  }

  // ---------- the theorem ----------

  // The first chunk that is not right.
  lemma {:induction false} FirstWrong(cfg: Config, n: nat) returns (k: nat)
    requires cfg.Valid() && n <= cfg.Tasks() && !RightBelow(cfg, n)
    ensures k < n && RightBelow(cfg, k) && !RightFor(cfg, k)
  {
    hide RightFor;
    if RightBelow(cfg, n - 1) {
      k := n - 1;
    } else {
      k := FirstWrong(cfg, n - 1);
    }
  }

  // An input with a chunk that is not right has a start and a run to the end that leaves it unsorted.
  lemma WrongChunkFails(cfg: Config) returns (all: seq<State>, done: seq<Act>)
    requires cfg.Valid() && HeadsAboveStop(cfg) && !RightBelow(cfg, cfg.Tasks())
    ensures Run(cfg, all, done) && Finished(all[|done|]) && all[|done|].sorted != Sort(cfg.input)
  {
    hide Run, HeadsAboveStop, Config.Chunk, RightBelow, Sort, Fills, Finished, Distinct, MayPrecede;
    var k := FirstWrong(cfg, cfg.Tasks());
    if k < cfg.Slaves() {
      all, done := FarmFails(cfg, k, Above(cfg.input));
    } else {
      var j :| 0 <= j < k && MayPrecede(cfg, j, k) && !Fills(cfg.Chunk(k), Sort(cfg.Chunk(j)));
      all, done := NotFilledFails(cfg, j, k);
    }
  }

  // For every input whose chunks start above STOP: all runs to the end, from all starts, leave the sorted
  // input if and only if the first chunks, one for each slave, repeat no value, and every later chunk
  // repeats a value only at positions where every chunk that may precede it on its slave has that value.
  lemma FarmSortsExactly(cfg: Config)
    requires cfg.Valid() && HeadsAboveStop(cfg)
    ensures FarmSorts(cfg)
       <==> (forall k :: 0 <= k < cfg.Slaves() && k < cfg.Tasks() ==> Distinct(cfg.Chunk(k)))
            && forall k, j :: cfg.Slaves() <= k < cfg.Tasks() && 0 <= j < k && MayPrecede(cfg, j, k) ==>
                 Fills(cfg.Chunk(k), Sort(cfg.Chunk(j)))
  {
    hide Run, HeadsAboveStop, Config.Chunk, Sort, Fills, Finished, Distinct, MayPrecede;
    assert RightBelow(cfg, cfg.Tasks())
      <==> (forall k :: 0 <= k < cfg.Slaves() && k < cfg.Tasks() ==> Distinct(cfg.Chunk(k)))
           && forall k, j :: cfg.Slaves() <= k < cfg.Tasks() && 0 <= j < k && MayPrecede(cfg, j, k) ==>
                Fills(cfg.Chunk(k), Sort(cfg.Chunk(j))) by { RightSpelledOut(cfg); }
    if RightBelow(cfg, cfg.Tasks()) {
      hide SortsIn, RightBelow;
      forall states: seq<State>, acts: seq<Act> ensures SortsIn(cfg, states, acts) {
        RightSortsIn(cfg, states, acts);
      }
    } else {
      var all, done := WrongChunkFails(cfg);
      assert !SortsIn(cfg, all, done);
    }
  }

  lemma RightSpelledOut(cfg: Config)
    requires cfg.Valid()
    ensures RightBelow(cfg, cfg.Tasks())
       <==> (forall k :: 0 <= k < cfg.Slaves() && k < cfg.Tasks() ==> Distinct(cfg.Chunk(k)))
            && forall k, j :: cfg.Slaves() <= k < cfg.Tasks() && 0 <= j < k && MayPrecede(cfg, j, k) ==>
                 Fills(cfg.Chunk(k), Sort(cfg.Chunk(j)))
  {
    hide Config.Chunk, Sort, Fills, Distinct, MayPrecede;
    if RightBelow(cfg, cfg.Tasks()) {
      forall k | 0 <= k < cfg.Slaves() && k < cfg.Tasks() ensures Distinct(cfg.Chunk(k)) { assert RightFor(cfg, k); }
      forall k, j | cfg.Slaves() <= k < cfg.Tasks() && 0 <= j < k && MayPrecede(cfg, j, k)
        ensures Fills(cfg.Chunk(k), Sort(cfg.Chunk(j)))
      {
        assert RightFor(cfg, k);
      }
    }
  }

  // ---------- two inputs ----------

  // Two processes, eight chunks of two: the first two given, the others 2, 3.
  function Sample(a: int, b: int, c: int, d: int): Config {
    Config(2, 2, [a, b, c, d, 2, 3, 2, 3, 2, 3, 2, 3, 2, 3, 2, 3])
  }

  lemma SampleOffset(a: int, b: int, c: int, d: int, k: nat)
    ensures Sample(a, b, c, d).Offset(k) == 2 * k
  {
    if k > 0 {
      SampleOffset(a, b, c, d, k - 1);
    }
  }

  lemma SampleChunks(a: int, b: int, c: int, d: int)
    ensures TwoPairs(Sample(a, b, c, d), a, b, c, d)
  {
    var cfg := Sample(a, b, c, d);
    assert cfg.np == cfg.size == 2 && |cfg.input| == 16 && cfg.Tasks() == 8 && cfg.Slaves() == 1;
    SampleOffset(a, b, c, d, 8);
    forall k | 0 <= k < 8
      ensures cfg.Valid() && cfg.Chunk(k) == [cfg.input[2 * k], cfg.input[2 * k + 1]]
    {
      SampleOffset(a, b, c, d, k);
      PairChunk(cfg, k);
    }
    hide Config.Chunk, Config.Offset;
    assert cfg.Chunk(0) == [cfg.input[2 * 0], cfg.input[2 * 0 + 1]];
    assert cfg.Chunk(1) == [cfg.input[2 * 1], cfg.input[2 * 1 + 1]];
    forall k | 2 <= k < 8 ensures cfg.Chunk(k) == [2, 3] {
      assert k == 2 || k == 3 || k == 4 || k == 5 || k == 6 || k == 7;
    }
  }

  lemma PairChunk(cfg: Config, k: nat)
    requires cfg.Valid() && cfg.size == 2 && k < cfg.Tasks() && cfg.Offset(k) == 2 * k && 2 * k + 2 <= |cfg.input|
    ensures cfg.Chunk(k) == [cfg.input[2 * k], cfg.input[2 * k + 1]]
  {}

  lemma SortedPair(x: int, y: int)
    requires x <= y
    ensures Sort([x, y]) == [x, y] && (Distinct([x, y]) <==> x < y)
  {
    SortUnique([x, y], [x, y]);
  }

  // Sorting a pair over the answer to another pair.
  lemma PairFills(x: int, y: int, u: int, v: int)
    requires x <= y && u <= v
    ensures Fills([x, y], Sort([u, v])) <==> x < y || v == y
  {
    SortedPair(x, y);
    SortedPair(u, v);
    hide Sort;
    assert Repeats([x, y], 1) <==> x == y;
  }

  ghost predicate TwoPairs(cfg: Config, a: int, b: int, c: int, d: int) {
    && cfg.Valid() && cfg.Slaves() == 1 && cfg.Tasks() == 8
    && cfg.Chunk(0) == [a, b] && cfg.Chunk(1) == [c, d] && forall k :: 2 <= k < 8 ==> cfg.Chunk(k) == [2, 3]
  }

  lemma PairsFill(cfg: Config, a: int, b: int, c: int, d: int, k: nat)
    requires TwoPairs(cfg, a, b, c, d) && a < b && c <= d && 1 <= k < 8
    ensures Fills(cfg.Chunk(k), Sort(cfg.Chunk(k - 1))) <==> k > 1 || c < d || d == b
  {
    if k == 1 { PairFills(c, d, a, b); }
    else if k == 2 { PairFills(2, 3, c, d); }
    else { PairFills(2, 3, 2, 3); }
    hide Fills, Sort, Config.Chunk;
  }

  // The farm sorts the sample if and only if the second pair repeats no value, or repeats the greater one
  // of the first pair.
  lemma PairsExactly(cfg: Config, a: int, b: int, c: int, d: int)
    requires TwoPairs(cfg, a, b, c, d) && -1 < a < b && -1 < c <= d
    ensures HeadsAboveStop(cfg) && (FarmSorts(cfg) <==> c < d || d == b)
  {
    assert HeadsAboveStop(cfg);
    SortedPair(a, b);
    forall k | 1 <= k < 8 ensures Fills(cfg.Chunk(k), Sort(cfg.Chunk(k - 1))) <==> k > 1 || c < d || d == b {
      PairsFill(cfg, a, b, c, d, k);
    }
    assert Distinct(cfg.Chunk(0));
    hide Config.Chunk, FarmSorts, Sort, Fills, Distinct, HeadsAboveStop;
    assert MayPrecede(cfg, 0, 1);
    FarmSortsExactly(cfg);
  }

  // 1, 1 after 0, 1 goes unharmed through the farm: the second position of the array holds a 1 already.
  lemma UnharmedFarm()
    ensures TwoPairs(Sample(0, 1, 1, 1), 0, 1, 1, 1) && FarmSorts(Sample(0, 1, 1, 1))
    ensures !Distinct([1, 1])
  {
    SampleChunks(0, 1, 1, 1);
    SortedPair(1, 1);
    hide Sample, Config.Chunk, FarmSorts, Sort, Distinct;
    PairsExactly(Sample(0, 1, 1, 1), 0, 1, 1, 1);
  }

  lemma HarmedAnswer()
    ensures Ranked([5, 5], [1, 2]) == [5, 2]
  {
    SortedPair(5, 5);
    RankedCells([5, 5], [1, 2], 0);
    RankedCells([5, 5], [1, 2], 1);
    hide Sort, Ranked;
    assert !Repeats([5, 5], 0) && Repeats([5, 5], 1);
    var r := Ranked([5, 5], [1, 2]);
    assert r == [r[0], r[1]];
  }

  // 5, 5 after 1, 2 does not: the second answer is 5, 2.
  lemma HarmedFarm()
    ensures TwoPairs(Sample(1, 2, 5, 5), 1, 2, 5, 5) && HeadsAboveStop(Sample(1, 2, 5, 5)) && !FarmSorts(Sample(1, 2, 5, 5))
  {
    SampleChunks(1, 2, 5, 5);
    hide Sample, Config.Chunk, FarmSorts, Sort, Distinct, Ranked, HeadsAboveStop;
    PairsExactly(Sample(1, 2, 5, 5), 1, 2, 5, 5);
  }
}
