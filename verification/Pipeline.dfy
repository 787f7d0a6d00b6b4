// The insertion-sort pipeline (PPD/MPI/T2/pipeline.c) as a machine of concurrent stages with
// FIFO channels: any enabled stage may take the next step.
module Pipeline {
  import opened SortSpec
  import opened PipelineStage

  datatype Config = Config(np: nat, ts: nat, input: seq<int>) {
    ghost predicate Valid() {
      np >= 2 && |input| == Total(0)
    }

    // The values that stage r takes: sort_size - task_size * r.
    function Total(r: nat): nat
      decreases np - r
    {
      if r >= np then 0 else ts + Total(r + 1)
    }

    // All the values that stage r takes, in order.
    function Inflow(r: nat): seq<int> {
      if r == 0 then input else Forwarded(ts, Inflow(r - 1))
    }
  }

  // A message is an integer, data or signal alike, or the measured time.
  datatype Msg = Num(value: int) | Time

  // The value that signals the end of a stage.
  const END: int := -1

  datatype Pc =
    | Loop                  // at the head of the loop over the values
    | Forward(carry: int)   // has to send the value carried out
    | AwaitEnd              // first stage: waits for the signal of the last one
    | SignalEnd             // last stage: signals the first one
    | AwaitToken            // waits for the signal of the stage before
    | PassToken             // has printed; signals the next stage
    | SendTime              // first stage
    | AwaitTime             // last stage
    | Done

  // i counts the finished turns of the loop.
  datatype Stage = Stage(pc: Pc, i: nat, kept: seq<int>)

  // log: what the stages have printed, one entry a stage.
  datatype State = State(stages: seq<Stage>, chans: map<(nat, nat), seq<Msg>>, log: seq<seq<int>>)

  function Chan(s: State, i: nat, j: nat): seq<Msg> {
    if (i, j) in s.chans then s.chans[(i, j)] else []
  }

  function Push(s: State, i: nat, j: nat, m: Msg): State {
    s.(chans := s.chans[(i, j) := Chan(s, i, j) + [m]])
  }

  function Pop(s: State, i: nat, j: nat): State
    requires Chan(s, i, j) != []
  {
    s.(chans := s.chans[(i, j) := Chan(s, i, j)[1..]])
  }

  function Set(s: State, r: nat, stage: Stage): State
    requires r < |s.stages|
  {
    s.(stages := s.stages[r := stage])
  }

  // The first message from i to j is an integer.
  predicate HasNum(s: State, i: nat, j: nat) {
    Chan(s, i, j) != [] && Chan(s, i, j)[0].Num?
  }

  // Stage r can take a step.
  predicate Enabled(cfg: Config, s: State, r: nat) {
    r < |s.stages| && var t := s.stages[r]; match t.pc
    case Loop => t.i >= cfg.Total(r) || (if r == 0 then t.i < |cfg.input| else HasNum(s, r - 1, r))
    case Forward(_) => true
    case AwaitEnd => cfg.np >= 1 && HasNum(s, cfg.np - 1, r)
    case SignalEnd => true
    case AwaitToken => r > 0 && HasNum(s, r - 1, r)
    case PassToken => true
    case SendTime => cfg.np >= 1
    case AwaitTime => Chan(s, 0, r) != [] && Chan(s, 0, r)[0].Time?
    case Done => false
  }

  // One turn of the loop up to its send: the value is shifted in; a full stage has to forward.
  function Taken(cfg: Config, t: Stage, value: int): Stage {
    var (k, out) := Shift(t.kept, value);
    if t.i < cfg.ts then t.(i := t.i + 1, kept := k + [out]) else t.(pc := Forward(out), kept := k)
  }

  // Where a stage goes after its loop, and after it has been told to print.
  function AfterLoop(cfg: Config, r: nat): Pc {
    if r == 0 then AwaitEnd else if r + 1 == cfg.np then SignalEnd else AwaitToken
  }

  function AfterPrint(cfg: Config, r: nat): Pc {
    if r + 1 == cfg.np then AwaitTime else PassToken
  }

  function AfterToken(cfg: Config, r: nat): Pc {
    if r == 0 then SendTime else if r + 1 == cfg.np then AwaitTime else Done
  }

  // A signal is taken from stage src: the end value makes the stage print.
  function Signalled(cfg: Config, s: State, r: nat, src: nat): State
    requires r < |s.stages| && HasNum(s, src, r)
  {
    var t, value := s.stages[r], Chan(s, src, r)[0].value;
    if value == END then
      Set(Pop(s, src, r), r, t.(pc := AfterPrint(cfg, r))).(log := s.log + [t.kept])
    else
      Set(Pop(s, src, r), r, t.(pc := AfterToken(cfg, r)))
  }

  function Apply(cfg: Config, s: State, r: nat): State
    requires Enabled(cfg, s, r)
  {
    var t := s.stages[r];
    match t.pc
    case Loop =>
      if t.i >= cfg.Total(r) then Set(s, r, t.(pc := AfterLoop(cfg, r)))
      else if r == 0 then Set(s, r, Taken(cfg, t, cfg.input[t.i]))
      else Set(Pop(s, r - 1, r), r, Taken(cfg, t, Chan(s, r - 1, r)[0].value))
    case Forward(carry) => Set(Push(s, r, r + 1, Num(carry)), r, t.(pc := Loop, i := t.i + 1))
    case AwaitEnd => Signalled(cfg, s, r, cfg.np - 1)
    case SignalEnd => Set(Push(s, r, 0, Num(END)), r, t.(pc := AwaitToken))
    case AwaitToken => Signalled(cfg, s, r, r - 1)
    case PassToken => Set(Push(s, r, r + 1, Num(END)), r, t.(pc := AfterToken(cfg, r)))
    case SendTime => Set(Push(s, r, cfg.np - 1, Time), r, t.(pc := Done))
    case AwaitTime => Set(Pop(s, 0, r), r, t.(pc := Done))
  }

  function Init(cfg: Config): State {
    State(seq(cfg.np, _ => Stage(Loop, 0, [])), map[], [])
  }

  // ---------- the invariant ----------

  predicate Looping(t: Stage) {
    t.pc.Loop? || t.pc.Forward?
  }

  // Values taken and values forwarded so far.
  function Took(cfg: Config, t: Stage, r: nat): nat {
    if t.pc.Loop? then t.i else if t.pc.Forward? then t.i + 1 else cfg.Total(r)
  }

  function Sent(cfg: Config, t: Stage, r: nat): nat {
    if Looping(t) then (if t.i <= cfg.ts then 0 else t.i - cfg.ts) else cfg.Total(r + 1)
  }

  // The stage has been told to print; it has told the next one.
  predicate Told(t: Stage) {
    t.pc.PassToken? || t.pc.SendTime? || t.pc.AwaitTime? || t.pc.Done?
  }

  predicate Tells(t: Stage) {
    t.pc.SendTime? || t.pc.Done?
  }

  // The last stage has signalled the first one.
  predicate Signals(t: Stage) {
    t.pc.AwaitToken? || t.pc.AwaitTime? || t.pc.Done?
  }

  function Nums(xs: seq<int>): (ms: seq<Msg>)
    ensures |ms| == |xs|
  {
    seq(|xs|, k requires 0 <= k < |xs| => Num(xs[k]))
  }

  // What is on its way from the first to the last stage besides data and signals.
  function TimeInFlight(cfg: Config, s: State): seq<Msg>
    requires |s.stages| == cfg.np >= 2
  {
    if s.stages[0].pc.Done? && !s.stages[cfg.np - 1].pc.Done? then [Time] else []
  }

  // What stage r holds, at every point of its program.
  ghost predicate StageInv(cfg: Config, s: State, r: nat)
    requires cfg.Valid() && |s.stages| == cfg.np && r < cfg.np
  {
    var t, xs := s.stages[r], cfg.Inflow(r);
    InflowSize(cfg, r);
    match t.pc
    case Loop => t.i <= cfg.Total(r) && t.kept == Kept(cfg.ts, xs[..t.i])
    case Forward(carry) =>
      cfg.ts <= t.i < cfg.Total(r) && t.kept == Kept(cfg.ts, xs[..t.i + 1])
      && carry == Forwarded(cfg.ts, xs)[t.i - cfg.ts]
    case _ =>
      t.kept == Kept(cfg.ts, xs) && match t.pc
        case AwaitEnd => r == 0
        case SignalEnd => r + 1 == cfg.np
        case AwaitToken => r > 0
        case PassToken => r + 1 < cfg.np
        case SendTime => r == 0
        case AwaitTime => r + 1 == cfg.np
        case _ => true
  }

  lemma {:induction false} InflowSize(cfg: Config, r: nat)
    requires cfg.Valid() && r <= cfg.np
    ensures |cfg.Inflow(r)| == cfg.Total(r)
  {
    if r > 0 {
      InflowSize(cfg, r - 1);
    }
  }

  // What is on its way from stage r - 1 to stage r when sent values have been sent and took
  // of them taken: data, then the signal, then, if there are only two stages, the time.
  function Link(cfg: Config, r: nat, took: nat, sent: nat, token: bool, time: seq<Msg>): seq<Msg>
    requires took <= sent <= |cfg.Inflow(r)|
  {
    Nums(cfg.Inflow(r)[took..sent]) + (if token then [Num(END)] else []) + time
  }

  ghost predicate LinkInv(cfg: Config, s: State, r: nat)
    requires cfg.Valid() && |s.stages| == cfg.np && r + 1 < cfg.np
  {
    var t, u := s.stages[r], s.stages[r + 1];
    InflowSize(cfg, r + 1);
    && Took(cfg, u, r + 1) <= Sent(cfg, t, r) <= cfg.Total(r + 1)
    && (Told(u) ==> Tells(t))
    && Chan(s, r, r + 1) == Link(cfg, r + 1, Took(cfg, u, r + 1), Sent(cfg, t, r), Tells(t) && !Told(u),
                                 if cfg.np == 2 then TimeInFlight(cfg, s) else [])
  }

  // The signal from the last to the first stage, and the time message.
  ghost predicate RingInv(cfg: Config, s: State)
    requires cfg.Valid() && |s.stages| == cfg.np
  {
    var first, last := s.stages[0], s.stages[cfg.np - 1];
    && (Told(first) ==> Signals(last))
    && Chan(s, cfg.np - 1, 0) == (if Signals(last) && !Told(first) then [Num(END)] else [])
    && (last.pc.Done? ==> first.pc.Done?)
    && (cfg.np > 2 ==> Chan(s, 0, cfg.np - 1) == TimeInFlight(cfg, s))
  }

  // The stages that have printed are the first ones, and they have printed what they keep.
  ghost predicate LogInv(cfg: Config, s: State)
    requires cfg.Valid() && |s.stages| == cfg.np
  {
    && |s.log| <= cfg.np
    && (forall r :: 0 <= r < cfg.np ==> (Told(s.stages[r]) <==> r < |s.log|))
    && (forall q :: 0 <= q < |s.log| ==> s.log[q] == Kept(cfg.ts, cfg.Inflow(q)))
  }

  ghost predicate Inv(cfg: Config, s: State) {
    && cfg.Valid()
    && |s.stages| == cfg.np
    && (forall r :: 0 <= r < cfg.np ==> StageInv(cfg, s, r))
    && (forall r :: 0 <= r < cfg.np - 1 ==> LinkInv(cfg, s, r))
    && RingInv(cfg, s)
    && LogInv(cfg, s)
  }
}
