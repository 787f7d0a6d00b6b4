// The master/slave sort (PPD/MPI/T1/master-slave.c) as a machine: the master hands out chunks
// on demand, the slaves rank-sort them, and replies are merged in the order they arrive.
module MasterSlave {
  import opened SortSpec
  import opened Merging
  import opened RankSort

  // slaves = np - 1 slaves; 4 * np chunks of size values.
  datatype Config = Config(np: nat, size: nat, input: seq<int>) {
    ghost predicate Valid() {
      np >= 2 && size >= 1 && |input| == Offset(Tasks())
    }

    function Slaves(): nat {
      if np == 0 then 0 else np - 1
    }

    function Tasks(): nat {
      4 * np
    }

    // Where chunk k starts.
    function Offset(k: nat): nat {
      if k == 0 then 0 else Offset(k - 1) + size
    }

    function Chunk(k: nat): (c: seq<int>)
      requires Valid() && k < Tasks()
      ensures |c| == size
    {
      OffsetsGrow(this, k + 1, Tasks());
      input[Offset(k)..Offset(k) + size]
    }

    // What the master sends to stop a slave: its input with the first value overwritten.
    function StopMessage(): (c: seq<int>)
      requires Valid()
      ensures |c| == size && c[0] == STOP
    {
      OffsetsGrow(this, 1, Tasks());
      input[0 := STOP][..size]
    }
  }

  lemma {:induction false} OffsetsGrow(cfg: Config, j: nat, k: nat)
    requires j <= k
    ensures cfg.Offset(j) <= cfg.Offset(k)
  {
    if j < k {
      OffsetsGrow(cfg, j, k - 1);
    }
  }

  const STOP: int := -1

  // A slave, with the messages on their way to it and back, and the output array it reuses.
  datatype Work = Idle | Sorting(chunk: seq<int>) | Stopped(chunk: seq<int>)
  datatype Slave = Slave(work: Work, inbox: seq<seq<int>>, outbox: seq<seq<int>>, out: seq<int>)

  // Where the master stands: the first chunks, the replies, the next chunk for slave k, the end.
  datatype Phase = Dispatch(next: nat) | Gather | Redispatch(slave: nat) | Stop(next: nat) | Done

  // sorted: the filled part of vector_sort; open: tasks_to_receive.
  datatype State = State(phase: Phase, sent: nat, received: nat, open: nat, sorted: seq<int>, slaves: seq<Slave>)

  datatype Act = MasterSteps | MasterReceives(k: nat) | SlaveReceives(k: nat) | SlaveReplies(k: nat)

  predicate Enabled(cfg: Config, s: State, act: Act) {
    match act
    case MasterSteps => (match s.phase
      case Dispatch(k) => k == |s.slaves| || (k < |s.slaves| && s.sent < cfg.Tasks())
      case Gather => s.open == 0
      case Redispatch(k) => k < |s.slaves|
      case Stop(k) => k <= |s.slaves|
      case Done => false)
    case MasterReceives(k) => s.phase.Gather? && s.open > 0 && k < |s.slaves| && s.slaves[k].outbox != []
    case SlaveReceives(k) => k < |s.slaves| && s.slaves[k].work.Idle? && s.slaves[k].inbox != [] && s.slaves[k].inbox[0] != []
    case SlaveReplies(k) => k < |s.slaves| && s.slaves[k].work.Sorting? && |s.slaves[k].work.chunk| == |s.slaves[k].out|
  }

  // Sends chunk number sent to slave k.
  function SendChunk(cfg: Config, s: State, k: nat, phase: Phase): State
    requires cfg.Valid() && k < |s.slaves| && s.sent < cfg.Tasks()
  {
    var w := s.slaves[k];
    s.(phase := phase, sent := s.sent + 1, open := s.open + 1,
       slaves := s.slaves[k := w.(inbox := w.inbox + [cfg.Chunk(s.sent)])])
  }

  function Apply(cfg: Config, s: State, act: Act): State
    requires cfg.Valid() && Enabled(cfg, s, act)
  {
    match act
    case MasterSteps => (match s.phase
      case Dispatch(k) =>
        if k == |s.slaves| then s.(phase := Gather) else SendChunk(cfg, s, k, Dispatch(k + 1))
      case Gather => s.(phase := Stop(0))
      case Redispatch(k) =>
        if s.sent < cfg.Tasks() then SendChunk(cfg, s, k, Gather) else s.(phase := Gather)
      case Stop(k) =>
        if k == |s.slaves| then s.(phase := Done)
        else
          var w := s.slaves[k];
          s.(phase := Stop(k + 1), slaves := s.slaves[k := w.(inbox := w.inbox + [cfg.StopMessage()])]))
    case MasterReceives(k) =>
      var w := s.slaves[k];
      var m := w.outbox[0];
      s.(phase := Redispatch(k), open := s.open - 1, received := s.received + 1,
         sorted := if s.received == 0 then m else Merged(s.sorted, m),
         slaves := s.slaves[k := w.(outbox := w.outbox[1..])])
    case SlaveReceives(k) =>
      var w := s.slaves[k];
      var m := w.inbox[0];
      s.(slaves := s.slaves[k := w.(work := if m[0] > STOP then Sorting(m) else Stopped(m), inbox := w.inbox[1..])])
    case SlaveReplies(k) =>
      var w := s.slaves[k];
      var m := Ranked(w.work.chunk, w.out);
      s.(slaves := s.slaves[k := w.(work := Idle, out := m, outbox := w.outbox + [m])])
  }

  // Before the first step; the output arrays of the slaves hold anything.
  ghost predicate Init(cfg: Config, s: State) {
    && s.phase == Dispatch(0) && s.sent == 0 && s.received == 0 && s.open == 0 && s.sorted == []
    && |s.slaves| == cfg.Slaves()
    && forall k :: 0 <= k < |s.slaves| ==>
         s.slaves[k].work.Idle? && s.slaves[k].inbox == [] && s.slaves[k].outbox == [] && |s.slaves[k].out| == cfg.size
  }

  // ---------- what is out with the slaves ----------

  // The chunks that slave w has not given back.
  function Load(w: Slave): nat {
    |w.inbox| + |w.outbox| + (if w.work.Idle? then 0 else 1)
  }

  // Those that stop it.
  function Stoppers(w: Slave): nat {
    StopHeads(w.inbox) + (if w.work.Stopped? then 1 else 0)
  }

  function StopHeads(ms: seq<seq<int>>): nat {
    if ms == [] then 0 else StopHeads(ms[..|ms| - 1]) + (if ms[|ms| - 1] != [] && ms[|ms| - 1][0] > STOP then 0 else 1)
  }

  // Their values.
  ghost function Values(w: Slave): multiset<int> {
    AllValues(w.inbox) + AllValues(w.outbox) + (if w.work.Idle? then multiset{} else multiset(w.work.chunk))
  }

  ghost function AllValues(ms: seq<seq<int>>): multiset<int> {
    if ms == [] then multiset{} else AllValues(ms[..|ms| - 1]) + multiset(ms[|ms| - 1])
  }

  function TotalLoad(ws: seq<Slave>): nat {
    if ws == [] then 0 else TotalLoad(ws[..|ws| - 1]) + Load(ws[|ws| - 1])
  }

  function TotalStoppers(ws: seq<Slave>): nat {
    if ws == [] then 0 else TotalStoppers(ws[..|ws| - 1]) + Stoppers(ws[|ws| - 1])
  }

  ghost function TotalValues(ws: seq<Slave>): multiset<int> {
    if ws == [] then multiset{} else TotalValues(ws[..|ws| - 1]) + Values(ws[|ws| - 1])
  }

  // How many of the first n chunks stop a slave: their first value is STOP or less.
  ghost function StopChunks(cfg: Config, n: nat): nat
    requires cfg.Valid() && n <= cfg.Tasks()
  {
    if n == 0 then 0 else StopChunks(cfg, n - 1) + (if cfg.Chunk(n - 1)[0] > STOP then 0 else 1)
  }

  // ---------- the invariant while chunks are out ----------

  ghost predicate IsChunk(cfg: Config, m: seq<int>)
    requires cfg.Valid()
  {
    exists k :: 0 <= k < cfg.Tasks() && m == cfg.Chunk(k)
  }

  ghost predicate SlaveInv(cfg: Config, w: Slave)
    requires cfg.Valid()
  {
    && Load(w) <= 1
    && |w.out| == cfg.size
    && (forall i :: 0 <= i < |w.inbox| ==> IsChunk(cfg, w.inbox[i]))
    && (forall i :: 0 <= i < |w.outbox| ==> |w.outbox[i]| == cfg.size)
    && (w.work.Sorting? ==> IsChunk(cfg, w.work.chunk) && w.work.chunk[0] > STOP)
    && (w.work.Stopped? ==> IsChunk(cfg, w.work.chunk) && !(w.work.chunk[0] > STOP))
  }

  predicate Ready(w: Slave) {
    w.work.Idle? && w.inbox == [] && w.outbox == []
  }

  ghost predicate RunningInv(cfg: Config, s: State) {
    && cfg.Valid()
    && |s.slaves| == cfg.Slaves()
    && (forall k :: 0 <= k < |s.slaves| ==> SlaveInv(cfg, s.slaves[k]))
    && s.sent == s.received + s.open <= cfg.Tasks()
    && s.open == TotalLoad(s.slaves)
    && StopChunks(cfg, s.sent) == TotalStoppers(s.slaves)
    && |s.sorted| == cfg.Offset(s.received)
    && match s.phase
       case Dispatch(k) => s.received == 0 && k == s.sent <= |s.slaves| && forall i :: k <= i < |s.slaves| ==> Ready(s.slaves[i])
       case Gather => s.open > 0 || s.sent == cfg.Tasks()
       case Redispatch(k) => k < |s.slaves| && Ready(s.slaves[k])
       case _ => false
  }

  // ---------- the invariant while the slaves are stopped ----------

  // Slave k has been told to stop, or has stopped.
  ghost predicate Told(cfg: Config, w: Slave)
    requires cfg.Valid()
  {
    w.outbox == [] && |w.out| == cfg.size
    && ((w.work.Idle? && w.inbox == [cfg.StopMessage()]) || (w.work.Stopped? && w.inbox == []))
  }

  ghost predicate EndingInv(cfg: Config, s: State) {
    && cfg.Valid()
    && |s.slaves| == cfg.Slaves()
    && s.sent == s.received == cfg.Tasks() && s.open == 0 && |s.sorted| == |cfg.input|
    && StopChunks(cfg, cfg.Tasks()) == 0
    && match s.phase
       case Stop(k) =>
         k <= |s.slaves|
         && (forall i :: 0 <= i < k ==> Told(cfg, s.slaves[i]))
         && (forall i :: k <= i < |s.slaves| ==> Ready(s.slaves[i]) && |s.slaves[i].out| == cfg.size)
       case Done => forall i :: 0 <= i < |s.slaves| ==> Told(cfg, s.slaves[i])
       case _ => false
  }

  ghost predicate Inv(cfg: Config, s: State) {
    RunningInv(cfg, s) || EndingInv(cfg, s)
  }

  // ---------- the contents, when the rank sort sorts every chunk ----------

  ghost predicate DistinctChunks(cfg: Config)
    requires cfg.Valid()
  {
    forall k :: 0 <= k < cfg.Tasks() ==> Distinct(cfg.Chunk(k))
  }

  // The merged part is sorted, replies are sorted, and nothing sent is lost.
  ghost predicate ContentInv(cfg: Config, s: State) {
    && cfg.Valid() && s.sent <= cfg.Tasks()
    && Sorted(s.sorted)
    && if s.phase.Stop? || s.phase.Done? then multiset(s.sorted) == multiset(cfg.input)
       else
         (forall k :: 0 <= k < |s.slaves| ==> RepliesSorted(s.slaves[k]))
         && multiset(s.sorted) + TotalValues(s.slaves) == SentValues(cfg, s.sent)
  }

  ghost predicate RepliesSorted(w: Slave) {
    forall i :: 0 <= i < |w.outbox| ==> Sorted(w.outbox[i])
  }

  // The values of the first n chunks.
  ghost function SentValues(cfg: Config, n: nat): multiset<int>
    requires cfg.Valid() && n <= cfg.Tasks()
  {
    OffsetsGrow(cfg, n, cfg.Tasks());
    multiset(cfg.input[..cfg.Offset(n)])
  }
}
