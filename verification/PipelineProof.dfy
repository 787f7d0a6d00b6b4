// What every step of the pipeline keeps, in every interleaving (PPD/MPI/T2/pipeline.c).
module PipelineProof {
  import opened SortSpec
  import opened PipelineStage
  import opened Pipeline

  lemma InitHolds(cfg: Config)
    requires cfg.Valid()
    ensures Inv(cfg, Init(cfg))
  {
    var s := Init(cfg);
    forall r | 0 <= r < cfg.np ensures StageInv(cfg, s, r) {
      InflowSize(cfg, r);
    }
    forall r | 0 <= r < cfg.np - 1 ensures LinkInv(cfg, s, r) {
      InflowSize(cfg, r + 1);
    }
  }

  // ---------- the messages of a link ----------

  lemma LinkTakesData(cfg: Config, r: nat, took: nat, sent: nat, token: bool, time: seq<Msg>)
    requires took < sent <= |cfg.Inflow(r)|
    ensures Link(cfg, r, took, sent, token, time) == [Num(cfg.Inflow(r)[took])] + Link(cfg, r, took + 1, sent, token, time)
  {
    var xs := cfg.Inflow(r);
    assert Nums(xs[took..sent]) == [Num(xs[took])] + Nums(xs[took + 1..sent]);
  }

  lemma LinkSendsData(cfg: Config, r: nat, took: nat, sent: nat)
    requires took <= sent < |cfg.Inflow(r)|
    ensures Link(cfg, r, took, sent + 1, false, []) == Link(cfg, r, took, sent, false, []) + [Num(cfg.Inflow(r)[sent])]
  {
    var xs := cfg.Inflow(r);
    assert xs[took..sent + 1] == xs[took..sent] + [xs[sent]];
    assert Nums(xs[took..sent + 1]) == Nums(xs[took..sent]) + [Num(xs[sent])];
  }

  // Without data on its way the link holds the signal and the time only.
  lemma LinkWithoutData(cfg: Config, r: nat, took: nat, token: bool, time: seq<Msg>)
    requires took <= |cfg.Inflow(r)|
    ensures Link(cfg, r, took, took, token, time) == (if token then [Num(END)] else []) + time
  {
    assert Nums(cfg.Inflow(r)[took..took]) == [];
  }

  lemma LinkAppends(cfg: Config, r: nat, took: nat, sent: nat, token: bool)
    requires took <= sent <= |cfg.Inflow(r)|
    ensures Link(cfg, r, took, sent, true, []) == Link(cfg, r, took, sent, false, []) + [Num(END)]
    ensures Link(cfg, r, took, sent, token, [Time]) == Link(cfg, r, took, sent, token, []) + [Time]
  {
  }

  // ---------- frames ----------

  // Stage t' stands for stage t towards the next stage, and towards the one before.
  ghost predicate SameOutput(cfg: Config, t: Stage, t': Stage, r: nat) {
    Sent(cfg, t', r) == Sent(cfg, t, r) && Tells(t') == Tells(t)
  }

  ghost predicate SameInput(cfg: Config, t: Stage, t': Stage, r: nat) {
    Took(cfg, t', r) == Took(cfg, t, r) && Told(t') == Told(t)
  }

  lemma LinkFrame(cfg: Config, s: State, s': State, q: nat)
    requires cfg.Valid() && |s.stages| == |s'.stages| == cfg.np && q + 1 < cfg.np && LinkInv(cfg, s, q)
    requires SameOutput(cfg, s.stages[q], s'.stages[q], q) && SameInput(cfg, s.stages[q + 1], s'.stages[q + 1], q + 1)
    requires Chan(s', q, q + 1) == Chan(s, q, q + 1)
    requires cfg.np == 2 ==> TimeInFlight(cfg, s') == TimeInFlight(cfg, s)
    ensures LinkInv(cfg, s', q)
  {
    hide Chan, TimeInFlight, Took, Sent, Tells, Told, Link;
  }

  // A step of stage r that changes nothing but the stage and channels next to it.
  ghost predicate OnlyTouches(cfg: Config, s: State, s': State, r: nat) {
    && |s'.stages| == |s.stages| == cfg.np && r < cfg.np
    && s'.stages == s.stages[r := s'.stages[r]]
    && forall i, j :: i != r && j != r ==> Chan(s', i, j) == Chan(s, i, j)
  }

  lemma RingFrame(cfg: Config, s: State, s': State, r: nat)
    requires cfg.Valid() && OnlyTouches(cfg, s, s', r) && RingInv(cfg, s)
    requires r == 0 ==> Told(s'.stages[0]) == Told(s.stages[0])
    requires r + 1 == cfg.np ==> Signals(s'.stages[r]) == Signals(s.stages[r])
    requires s'.stages[r].pc.Done? == s.stages[r].pc.Done? || (0 < r < cfg.np - 1)
    requires Chan(s', cfg.np - 1, 0) == Chan(s, cfg.np - 1, 0)
    requires cfg.np > 2 ==> Chan(s', 0, cfg.np - 1) == Chan(s, 0, cfg.np - 1)
    ensures RingInv(cfg, s') && TimeInFlight(cfg, s') == TimeInFlight(cfg, s)
  {
    hide Chan, Told, Signals;
  }

  lemma LogFrame(cfg: Config, s: State, s': State, r: nat)
    requires cfg.Valid() && OnlyTouches(cfg, s, s', r) && LogInv(cfg, s)
    requires s'.log == s.log && Told(s'.stages[r]) == Told(s.stages[r])
    ensures LogInv(cfg, s')
  {
    hide Told, Kept;
  }

  lemma StageFrame(cfg: Config, s: State, s': State, r: nat)
    requires Inv(cfg, s) && OnlyTouches(cfg, s, s', r) && StageInv(cfg, s', r)
    ensures forall q :: 0 <= q < cfg.np ==> StageInv(cfg, s', q)
  {
    hide LinkInv, RingInv, LogInv, Kept, Forwarded;
    forall q | 0 <= q < cfg.np ensures StageInv(cfg, s', q) {
      assert StageInv(cfg, s, q);
    }
  }

  // All links, given the two that meet stage r.
  lemma LinksFrame(cfg: Config, s: State, s': State, r: nat)
    requires Inv(cfg, s) && OnlyTouches(cfg, s, s', r)
    requires r > 0 ==> LinkInv(cfg, s', r - 1)
    requires r + 1 < cfg.np ==> LinkInv(cfg, s', r)
    ensures forall q :: 0 <= q < cfg.np - 1 ==> LinkInv(cfg, s', q)
  {
    hide StageInv, RingInv, LogInv, Chan;
    forall q | 0 <= q < cfg.np - 1 ensures LinkInv(cfg, s', q) {
      if q != r && q + 1 != r {
        hide LinkInv;
        assert LinkInv(cfg, s, q);
        LinkFrame(cfg, s, s', q);
      }
    }
  }

  // ---------- the loop ----------

  // Stage r leaves its loop: everything was taken and forwarded.
  lemma StepLeaves(cfg: Config, s: State, r: nat)
    requires Inv(cfg, s) && Enabled(cfg, s, r) && s.stages[r].pc.Loop? && s.stages[r].i >= cfg.Total(r)
    ensures Inv(cfg, Apply(cfg, s, r))
  {
    hide LinkInv, RingInv, LogInv, StageInv;
    var s' := Apply(cfg, s, r);
    LeavesStage(cfg, s, r);
    StageFrame(cfg, s, s', r);
    RingFrame(cfg, s, s', r);
    if r > 0 { LinkFrame(cfg, s, s', r - 1); }
    if r + 1 < cfg.np { LinkFrame(cfg, s, s', r); }
    LinksFrame(cfg, s, s', r);
    LogFrame(cfg, s, s', r);
  }

  lemma LeavesStage(cfg: Config, s: State, r: nat)
    requires Inv(cfg, s) && Enabled(cfg, s, r) && s.stages[r].pc.Loop? && s.stages[r].i >= cfg.Total(r)
    ensures var s' := Apply(cfg, s, r);
      OnlyTouches(cfg, s, s', r) && StageInv(cfg, s', r)
      && SameOutput(cfg, s.stages[r], s'.stages[r], r) && SameInput(cfg, s.stages[r], s'.stages[r], r)
  {
    hide LinkInv, RingInv, LogInv, Kept, Forwarded;
    assert StageInv(cfg, s, r);
    InflowSize(cfg, r);
    assert cfg.Inflow(r)[..s.stages[r].i] == cfg.Inflow(r);
  }

  // Framing by count: while stage r still takes values, the next message for it is the next
  // value of its inflow, even if that value is the one that signals the end.
  lemma NextIsData(cfg: Config, s: State, r: nat)
    requires Inv(cfg, s) && 0 < r < cfg.np && s.stages[r].pc.Loop? && s.stages[r].i < cfg.Total(r)
    requires Chan(s, r - 1, r) != []
    ensures s.stages[r].i < Sent(cfg, s.stages[r - 1], r - 1) && s.stages[r].i < |cfg.Inflow(r)|
    ensures Chan(s, r - 1, r)[0] == Num(cfg.Inflow(r)[s.stages[r].i])
  {
    hide StageInv, RingInv, LogInv, Link;
    InflowSize(cfg, r);
    assert LinkInv(cfg, s, r - 1);
    var i, sent := s.stages[r].i, Sent(cfg, s.stages[r - 1], r - 1);
    var token := Tells(s.stages[r - 1]) && !Told(s.stages[r]);
    var time := if cfg.np == 2 then TimeInFlight(cfg, s) else [];
    if i == sent {
      LinkWithoutData(cfg, r, i, token, time);
    } else {
      LinkTakesData(cfg, r, i, sent, token, time);
    }
  }

  // Stage r takes one more value.
  lemma StepTakes(cfg: Config, s: State, r: nat)
    requires Inv(cfg, s) && Enabled(cfg, s, r) && s.stages[r].pc.Loop? && s.stages[r].i < cfg.Total(r)
    ensures Inv(cfg, Apply(cfg, s, r))
  {
    hide LinkInv, RingInv, LogInv, StageInv;
    var s' := Apply(cfg, s, r);
    TakesStage(cfg, s, r);
    StageFrame(cfg, s, s', r);
    RingFrame(cfg, s, s', r);
    if r > 0 { TakesLink(cfg, s, r); }
    if r + 1 < cfg.np { LinkFrame(cfg, s, s', r); }
    LinksFrame(cfg, s, s', r);
    LogFrame(cfg, s, s', r);
  }

  lemma TakesStage(cfg: Config, s: State, r: nat)
    requires Inv(cfg, s) && Enabled(cfg, s, r) && s.stages[r].pc.Loop? && s.stages[r].i < cfg.Total(r)
    ensures var s' := Apply(cfg, s, r);
      OnlyTouches(cfg, s, s', r) && StageInv(cfg, s', r)
      && SameOutput(cfg, s.stages[r], s'.stages[r], r) && Looping(s'.stages[r])
      && Took(cfg, s'.stages[r], r) == s.stages[r].i + 1
  {
    hide LinkInv, RingInv, LogInv, Kept, Forwarded, Shift;
    assert StageInv(cfg, s, r);
    InflowSize(cfg, r);
    if r > 0 { NextIsData(cfg, s, r); }
    TakeNext(cfg.ts, cfg.Inflow(r), s.stages[r].i);
  }

  lemma TakesLink(cfg: Config, s: State, r: nat)
    requires Inv(cfg, s) && Enabled(cfg, s, r) && s.stages[r].pc.Loop? && s.stages[r].i < cfg.Total(r) && r > 0
    ensures OnlyTouches(cfg, s, Apply(cfg, s, r), r) && LinkInv(cfg, Apply(cfg, s, r), r - 1)
  {
    hide StageInv, RingInv, LogInv, Link, Shift;
    TakesStage(cfg, s, r);
    NextIsData(cfg, s, r);
    assert LinkInv(cfg, s, r - 1);
    InflowSize(cfg, r);
    LinkTakesData(cfg, r, s.stages[r].i, Sent(cfg, s.stages[r - 1], r - 1), Tells(s.stages[r - 1]) && !Told(s.stages[r]),
                  if cfg.np == 2 then TimeInFlight(cfg, s) else []);
  }

  // Stage r forwards the value carried out.
  lemma StepForwards(cfg: Config, s: State, r: nat)
    requires Inv(cfg, s) && Enabled(cfg, s, r) && s.stages[r].pc.Forward?
    ensures Inv(cfg, Apply(cfg, s, r))
  {
    hide LinkInv, RingInv, LogInv, StageInv;
    var s' := Apply(cfg, s, r);
    ForwardsStage(cfg, s, r);
    StageFrame(cfg, s, s', r);
    RingFrame(cfg, s, s', r);
    if r > 0 { LinkFrame(cfg, s, s', r - 1); }
    ForwardsLink(cfg, s, r);
    LinksFrame(cfg, s, s', r);
    LogFrame(cfg, s, s', r);
  }

  // The carried value is the next one of what the next stage takes.
  lemma CarryIsNext(cfg: Config, s: State, r: nat)
    requires Inv(cfg, s) && r < cfg.np && s.stages[r].pc.Forward?
    ensures r + 1 < cfg.np && Sent(cfg, s.stages[r], r) + 1 == s.stages[r].i + 1 - cfg.ts <= |cfg.Inflow(r + 1)|
    ensures s.stages[r].pc.carry == cfg.Inflow(r + 1)[Sent(cfg, s.stages[r], r)]
  {
    hide LinkInv, RingInv, LogInv, Kept, Forwarded;
    assert StageInv(cfg, s, r);
    assert cfg.Total(r) == cfg.ts + cfg.Total(r + 1);
    InflowSize(cfg, r);
    InflowSize(cfg, r + 1);
  }

  lemma ForwardsStage(cfg: Config, s: State, r: nat)
    requires Inv(cfg, s) && Enabled(cfg, s, r) && s.stages[r].pc.Forward?
    ensures r + 1 < cfg.np
    ensures var s' := Apply(cfg, s, r);
      OnlyTouches(cfg, s, s', r) && StageInv(cfg, s', r)
      && SameInput(cfg, s.stages[r], s'.stages[r], r) && Looping(s'.stages[r])
      && Sent(cfg, s'.stages[r], r) == Sent(cfg, s.stages[r], r) + 1
  {
    hide LinkInv, RingInv, LogInv, Kept, Forwarded, Shift;
    assert StageInv(cfg, s, r);
    CarryIsNext(cfg, s, r);
  }

  lemma ForwardsLink(cfg: Config, s: State, r: nat)
    requires Inv(cfg, s) && Enabled(cfg, s, r) && s.stages[r].pc.Forward? && r + 1 < cfg.np
    ensures OnlyTouches(cfg, s, Apply(cfg, s, r), r) && LinkInv(cfg, Apply(cfg, s, r), r)
  {
    hide StageInv, RingInv, LogInv, Link, Sent, Took, Config.Inflow, Config.Total;
    ForwardsStage(cfg, s, r);
    CarryIsNext(cfg, s, r);
    assert LinkInv(cfg, s, r);
    InflowSize(cfg, r + 1);
    LinkSendsData(cfg, r + 1, Took(cfg, s.stages[r + 1], r + 1), Sent(cfg, s.stages[r], r));
  }

  // ---------- the signals ----------

  // The last stage signals the first one.
  lemma StepSignals(cfg: Config, s: State, r: nat)
    requires Inv(cfg, s) && Enabled(cfg, s, r) && s.stages[r].pc.SignalEnd?
    ensures Inv(cfg, Apply(cfg, s, r))
  {
    hide LinkInv, LogInv, Kept;
    var s' := Apply(cfg, s, r);
    assert StageInv(cfg, s, r);
    StageFrame(cfg, s, s', r);
    LinkFrame(cfg, s, s', r - 1);
    LinksFrame(cfg, s, s', r);
    LogFrame(cfg, s, s', r);
  }

  // A stage that takes its signal finds the end value, and it is its turn to print.
  lemma TokenIsEnd(cfg: Config, s: State, r: nat)
    requires Inv(cfg, s) && 0 < r < cfg.np && s.stages[r].pc.AwaitToken? && Chan(s, r - 1, r) != []
    requires Chan(s, r - 1, r)[0].Num?
    ensures Chan(s, r - 1, r)[0] == Num(-1) && Tells(s.stages[r - 1]) && |s.log| == r
    ensures Sent(cfg, s.stages[r - 1], r - 1) == cfg.Total(r) == |cfg.Inflow(r)|
  {
    hide StageInv, RingInv, Link, Kept;
    InflowSize(cfg, r);
    assert LinkInv(cfg, s, r - 1);
    LinkWithoutData(cfg, r, cfg.Total(r), Tells(s.stages[r - 1]) && !Told(s.stages[r]),
                    if cfg.np == 2 then TimeInFlight(cfg, s) else []);
  }

  // A later stage takes the signal and prints.
  lemma StepPrints(cfg: Config, s: State, r: nat)
    requires Inv(cfg, s) && Enabled(cfg, s, r) && s.stages[r].pc.AwaitToken?
    ensures Inv(cfg, Apply(cfg, s, r))
  {
    hide LinkInv, RingInv, LogInv, Kept, StageInv;
    var s' := Apply(cfg, s, r);
    TokenIsEnd(cfg, s, r);
    PrintsStage(cfg, s, r);
    StageFrame(cfg, s, s', r);
    RingFrame(cfg, s, s', r);
    PrintsLink(cfg, s, r);
    if r + 1 < cfg.np { LinkFrame(cfg, s, s', r); }
    LinksFrame(cfg, s, s', r);
    LogGrows(cfg, s, s', r);
  }

  lemma PrintsStage(cfg: Config, s: State, r: nat)
    requires Inv(cfg, s) && Enabled(cfg, s, r) && s.stages[r].pc.AwaitToken? && Chan(s, r - 1, r)[0] == Num(END)
    ensures var s' := Apply(cfg, s, r);
      OnlyTouches(cfg, s, s', r) && StageInv(cfg, s', r) && s'.log == s.log + [Kept(cfg.ts, cfg.Inflow(r))]
      && SameOutput(cfg, s.stages[r], s'.stages[r], r) && Told(s'.stages[r])
      && Took(cfg, s'.stages[r], r) == cfg.Total(r)
  {
    hide LinkInv, RingInv, LogInv, Kept;
    assert StageInv(cfg, s, r);
  }

  lemma PrintsLink(cfg: Config, s: State, r: nat)
    requires Inv(cfg, s) && Enabled(cfg, s, r) && s.stages[r].pc.AwaitToken? && Chan(s, r - 1, r)[0] == Num(END)
    ensures OnlyTouches(cfg, s, Apply(cfg, s, r), r) && LinkInv(cfg, Apply(cfg, s, r), r - 1)
  {
    hide StageInv, RingInv, LogInv, Link, Kept;
    PrintsStage(cfg, s, r);
    TokenIsEnd(cfg, s, r);
    assert LinkInv(cfg, s, r - 1);
    InflowSize(cfg, r);
    var time := if cfg.np == 2 then TimeInFlight(cfg, s) else [];
    LinkWithoutData(cfg, r, cfg.Total(r), true, time);
    LinkWithoutData(cfg, r, cfg.Total(r), false, time);
  }

  lemma LogGrows(cfg: Config, s: State, s': State, r: nat)
    requires Inv(cfg, s) && OnlyTouches(cfg, s, s', r) && |s.log| == r
    requires s'.log == s.log + [Kept(cfg.ts, cfg.Inflow(r))] && Told(s'.stages[r])
    ensures LogInv(cfg, s')
  {
    hide StageInv, LinkInv, RingInv, Told, Kept;
  }

  // The first stage takes the signal of the last one and prints.
  lemma StepPrintsFirst(cfg: Config, s: State, r: nat)
    requires Inv(cfg, s) && Enabled(cfg, s, r) && s.stages[r].pc.AwaitEnd?
    ensures Inv(cfg, Apply(cfg, s, r))
  {
    hide LinkInv, LogInv, Kept;
    var s' := Apply(cfg, s, r);
    assert StageInv(cfg, s, r) && RingInv(cfg, s);
    StageFrame(cfg, s, s', r);
    LinkFrame(cfg, s, s', r);
    LinksFrame(cfg, s, s', r);
    FirstLogIsEmpty(cfg, s);
    LogGrows(cfg, s, s', r);
  }

  lemma FirstLogIsEmpty(cfg: Config, s: State)
    requires Inv(cfg, s) && !Told(s.stages[0])
    ensures s.log == []
  {
  }

  // A stage that has printed signals the next one.
  lemma StepPasses(cfg: Config, s: State, r: nat)
    requires Inv(cfg, s) && Enabled(cfg, s, r) && s.stages[r].pc.PassToken?
    ensures Inv(cfg, Apply(cfg, s, r))
  {
    hide LinkInv, RingInv, LogInv, Kept, StageInv;
    var s' := Apply(cfg, s, r);
    PassesStage(cfg, s, r);
    StageFrame(cfg, s, s', r);
    RingFrame(cfg, s, s', r);
    if r > 0 { LinkFrame(cfg, s, s', r - 1); }
    PassesLink(cfg, s, r);
    LinksFrame(cfg, s, s', r);
    LogFrame(cfg, s, s', r);
  }

  lemma PassesStage(cfg: Config, s: State, r: nat)
    requires Inv(cfg, s) && Enabled(cfg, s, r) && s.stages[r].pc.PassToken?
    ensures r + 1 < cfg.np
    ensures var s' := Apply(cfg, s, r);
      OnlyTouches(cfg, s, s', r) && StageInv(cfg, s', r) && s'.log == s.log
      && SameInput(cfg, s.stages[r], s'.stages[r], r) && Tells(s'.stages[r])
      && Sent(cfg, s'.stages[r], r) == Sent(cfg, s.stages[r], r) == cfg.Total(r + 1)
      && (s'.stages[r].pc.Done? ==> r > 0)
  {
    hide LinkInv, RingInv, LogInv, Kept;
    assert StageInv(cfg, s, r);
  }

  lemma PassesLink(cfg: Config, s: State, r: nat)
    requires Inv(cfg, s) && Enabled(cfg, s, r) && s.stages[r].pc.PassToken? && r + 1 < cfg.np
    ensures OnlyTouches(cfg, s, Apply(cfg, s, r), r) && LinkInv(cfg, Apply(cfg, s, r), r)
  {
    hide StageInv, RingInv, LogInv, Link, Kept;
    PassesStage(cfg, s, r);
    assert LinkInv(cfg, s, r);
    InflowSize(cfg, r + 1);
    LinkAppends(cfg, r + 1, Took(cfg, s.stages[r + 1], r + 1), Sent(cfg, s.stages[r], r), true);
  }

  // ---------- the time ----------

  lemma StepSendsTime(cfg: Config, s: State, r: nat)
    requires Inv(cfg, s) && Enabled(cfg, s, r) && s.stages[r].pc.SendTime?
    ensures Inv(cfg, Apply(cfg, s, r))
  {
    hide LinkInv, LogInv, Kept;
    var s' := Apply(cfg, s, r);
    assert StageInv(cfg, s, r) && RingInv(cfg, s);
    StageFrame(cfg, s, s', r);
    if cfg.np == 2 { TimeLink(cfg, s); } else { LinkFrame(cfg, s, s', r); }
    LinksFrame(cfg, s, s', r);
    LogFrame(cfg, s, s', r);
  }

  lemma TimeLink(cfg: Config, s: State)
    requires Inv(cfg, s) && Enabled(cfg, s, 0) && s.stages[0].pc.SendTime? && cfg.np == 2
    ensures OnlyTouches(cfg, s, Apply(cfg, s, 0), 0) && LinkInv(cfg, Apply(cfg, s, 0), 0)
  {
    hide StageInv, LogInv, Link, Kept;
    assert LinkInv(cfg, s, 0);
    InflowSize(cfg, 1);
    LinkAppends(cfg, 1, Took(cfg, s.stages[1], 1), Sent(cfg, s.stages[0], 0), Tells(s.stages[0]) && !Told(s.stages[1]));
  }

  lemma StepTakesTime(cfg: Config, s: State, r: nat)
    requires Inv(cfg, s) && Enabled(cfg, s, r) && s.stages[r].pc.AwaitTime?
    ensures Inv(cfg, Apply(cfg, s, r))
  {
    hide LinkInv, LogInv, Kept;
    var s' := Apply(cfg, s, r);
    assert StageInv(cfg, s, r) && RingInv(cfg, s);
    if cfg.np == 2 { TimeTakenLink(cfg, s); }
    StageFrame(cfg, s, s', r);
    if cfg.np > 2 { LinkFrame(cfg, s, s', r - 1); }
    LinksFrame(cfg, s, s', r);
    LogFrame(cfg, s, s', r);
  }

  lemma TimeTakenLink(cfg: Config, s: State)
    requires Inv(cfg, s) && Enabled(cfg, s, 1) && s.stages[1].pc.AwaitTime? && cfg.np == 2
    ensures TimeInFlight(cfg, s) == [Time]
    ensures OnlyTouches(cfg, s, Apply(cfg, s, 1), 1) && LinkInv(cfg, Apply(cfg, s, 1), 0)
  {
    hide StageInv, LogInv, Link, Kept;
    assert LinkInv(cfg, s, 0);
    InflowSize(cfg, 1);
    LinkWithoutData(cfg, 1, cfg.Total(1), false, TimeInFlight(cfg, s));
    LinkWithoutData(cfg, 1, cfg.Total(1), false, []);
  }

  // ---------- the invariant ----------

  // Every step of every stage keeps the invariant.
  lemma StepKeepsInv(cfg: Config, s: State, r: nat)
    requires Inv(cfg, s) && Enabled(cfg, s, r)
    ensures Inv(cfg, Apply(cfg, s, r))
  {
    hide Inv, Apply;
    match s.stages[r].pc
    case Loop => if s.stages[r].i >= cfg.Total(r) { StepLeaves(cfg, s, r); } else { StepTakes(cfg, s, r); }
    case Forward(_) => StepForwards(cfg, s, r);
    case AwaitEnd => StepPrintsFirst(cfg, s, r);
    case SignalEnd => StepSignals(cfg, s, r);
    case AwaitToken => StepPrints(cfg, s, r);
    case PassToken => StepPasses(cfg, s, r);
    case SendTime => StepSendsTime(cfg, s, r);
    case AwaitTime => StepTakesTime(cfg, s, r);
  }
}
