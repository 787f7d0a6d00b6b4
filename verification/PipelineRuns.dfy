// Whole runs of the pipeline (PPD/MPI/T2/pipeline.c): they end, they never get stuck, no
// value is lost on the way, and the printed output is the sorted input.
module PipelineRuns {
  import opened SortSpec
  import opened PipelineStage
  import opened Pipeline
  import opened PipelineProof

  // A run from the start: any enabled stage may take the next step.
  ghost predicate Run(cfg: Config, states: seq<State>, steps: seq<nat>) {
    && |states| == |steps| + 1
    && states[0] == Init(cfg)
    && forall t :: 0 <= t < |steps| ==>
         Enabled(cfg, states[t], steps[t]) && states[t + 1] == Apply(cfg, states[t], steps[t])
  }

  lemma {:induction false} RunKeepsInv(cfg: Config, states: seq<State>, steps: seq<nat>, t: nat)
    requires cfg.Valid() && Run(cfg, states, steps) && t < |states|
    ensures Inv(cfg, states[t])
  {
    hide Inv, Apply, Enabled;
    if t == 0 {
      InitHolds(cfg);
    } else {
      RunKeepsInv(cfg, states, steps, t - 1);
      StepKeepsInv(cfg, states[t - 1], steps[t - 1]);
    }
  }

  // ---------- the slices of the sorted input ----------

  // The first position of the sorted input that stage r is responsible for.
  function Offset(cfg: Config, r: nat): nat {
    if r == 0 then 0 else Offset(cfg, r - 1) + cfg.ts
  }

  lemma {:induction false} OffsetAndTotal(cfg: Config, r: nat)
    requires cfg.Valid() && r <= cfg.np
    ensures Offset(cfg, r) + cfg.Total(r) == |cfg.input|
    ensures Offset(cfg, r) == r * cfg.ts
  {
    if r > 0 {
      OffsetAndTotal(cfg, r - 1);
      assert cfg.Total(r - 1) == cfg.ts + cfg.Total(r);
      assert r * cfg.ts == (r - 1) * cfg.ts + cfg.ts;
    }
  }

  // A known part in the middle of a sequence.
  lemma PartInside(all: seq<int>, o: nat, k: seq<int>, rest: seq<int>)
    requires o <= |all| && all[o..] == k + rest
    ensures o + |k| <= |all| && all[o..o + |k|] == k && all[o + |k|..] == rest
    ensures all[..o] + k == all[..o + |k|]
  {
    assert all[o..o + |k|] == (k + rest)[..|k|];
    assert all[o + |k|..] == (k + rest)[|k|..];
  }

  // What reaches stage r is everything but the r * ts smallest values.
  lemma {:induction false} InflowIsTail(cfg: Config, r: nat)
    requires cfg.Valid() && r <= cfg.np
    ensures Offset(cfg, r) <= |cfg.input|
    ensures Sort(cfg.input)[Offset(cfg, r)..] == Sort(cfg.Inflow(r))
  {
    hide Sort, Kept, Forwarded;
    OffsetAndTotal(cfg, r);
    if r > 0 {
      InflowIsTail(cfg, r - 1);
      InflowSize(cfg, r - 1);
      KeptThenForwarded(cfg.ts, cfg.Inflow(r - 1));
      PartInside(Sort(cfg.input), Offset(cfg, r - 1), Kept(cfg.ts, cfg.Inflow(r - 1)), Sort(cfg.Inflow(r)));
    }
  }

  // Stage r ends up with the slice r * ts .. (r + 1) * ts of the sorted input.
  lemma KeptIsSlice(cfg: Config, r: nat)
    requires cfg.Valid() && r < cfg.np
    ensures Offset(cfg, r) + cfg.ts <= |cfg.input|
    ensures Kept(cfg.ts, cfg.Inflow(r)) == Sort(cfg.input)[Offset(cfg, r)..Offset(cfg, r) + cfg.ts]
    ensures Sort(cfg.input)[..Offset(cfg, r)] + Kept(cfg.ts, cfg.Inflow(r)) == Sort(cfg.input)[..Offset(cfg, r) + cfg.ts]
  {
    hide Sort, Kept, Forwarded;
    InflowIsTail(cfg, r);
    InflowSize(cfg, r);
    KeptThenForwarded(cfg.ts, cfg.Inflow(r));
    PartInside(Sort(cfg.input), Offset(cfg, r), Kept(cfg.ts, cfg.Inflow(r)), Sort(Forwarded(cfg.ts, cfg.Inflow(r))));
  }

  // The lines printed so far.
  function Lines(log: seq<seq<int>>): seq<int> {
    if log == [] then [] else Lines(log[..|log| - 1]) + log[|log| - 1]
  }

  // At every moment the output is a prefix of the sorted input.
  lemma {:induction false} LinesArePrefix(cfg: Config, log: seq<seq<int>>)
    requires cfg.Valid() && |log| <= cfg.np
    requires forall q :: 0 <= q < |log| ==> log[q] == Kept(cfg.ts, cfg.Inflow(q))
    ensures Offset(cfg, |log|) <= |cfg.input|
    ensures Lines(log) == Sort(cfg.input)[..Offset(cfg, |log|)]
  {
    hide Sort, Kept, Lines;
    OffsetAndTotal(cfg, |log|);
    LinesStep(log);
    if log != [] {
      var last := |log| - 1;
      LinesArePrefix(cfg, log[..last]);
      KeptIsSlice(cfg, last);
    }
  }

  lemma LinesStep(log: seq<seq<int>>)
    ensures Lines([]) == []
    ensures log != [] ==> Lines(log) == Lines(log[..|log| - 1]) + log[|log| - 1]
  {
  }

  // ---------- no value is lost ----------

  lemma InFlightFits(cfg: Config, s: State, r: nat)
    requires Inv(cfg, s) && r + 1 < cfg.np
    ensures Took(cfg, s.stages[r + 1], r + 1) <= Sent(cfg, s.stages[r], r) <= |cfg.Inflow(r + 1)|
  {
    hide StageInv, RingInv, LogInv, Took, Sent, Link;
    InflowSize(cfg, r + 1);
    assert LinkInv(cfg, s, r);
  }

  // The values on their way from stage r to the next one.
  ghost function InFlight(cfg: Config, s: State, r: nat): seq<int>
    requires Inv(cfg, s) && r + 1 < cfg.np
  {
    InFlightFits(cfg, s, r);
    cfg.Inflow(r + 1)[Took(cfg, s.stages[r + 1], r + 1)..Sent(cfg, s.stages[r], r)]
  }

  // They are the first messages of that channel.
  lemma InFlightIsOnTheChannel(cfg: Config, s: State, r: nat)
    requires Inv(cfg, s) && r + 1 < cfg.np
    ensures Nums(InFlight(cfg, s, r)) <= Chan(s, r, r + 1)
  {
    hide StageInv, RingInv, LogInv;
    assert LinkInv(cfg, s, r);
    InflowSize(cfg, r + 1);
  }

  // What stage r and the stages after it hold: kept, about to be sent, and on the way.
  ghost function Held(cfg: Config, s: State, r: nat): multiset<int>
    requires Inv(cfg, s) && r < cfg.np
    decreases cfg.np - r
  {
    var t := s.stages[r];
    multiset(t.kept) + (if t.pc.Forward? then multiset{t.pc.carry} else multiset{})
    + (if r + 1 < cfg.np then multiset(InFlight(cfg, s, r)) + Held(cfg, s, r + 1) else multiset{})
  }

  // It is exactly what stage r has taken so far.
  lemma {:induction false} HeldIsTaken(cfg: Config, s: State, r: nat)
    requires Inv(cfg, s) && r < cfg.np
    ensures Took(cfg, s.stages[r], r) <= |cfg.Inflow(r)|
    ensures Held(cfg, s, r) == multiset(cfg.Inflow(r)[..Took(cfg, s.stages[r], r)])
    decreases cfg.np - r
  {
    hide LinkInv, RingInv, LogInv, StageInv, Kept, Forwarded, Took, InFlight;
    KeptSoFar(cfg, s, r);
    StageSplits(cfg.ts, cfg.Inflow(r)[..Took(cfg, s.stages[r], r)]);
    if r + 1 < cfg.np {
      HeldIsTaken(cfg, s, r + 1);
      SentSoFar(cfg, s, r);
      Regroup4(multiset(s.stages[r].kept), if s.stages[r].pc.Forward? then multiset{s.stages[r].pc.carry} else multiset{},
               multiset(InFlight(cfg, s, r)), Held(cfg, s, r + 1));
    }
  }

  lemma Regroup4(a: multiset<int>, b: multiset<int>, c: multiset<int>, d: multiset<int>)
    ensures a + b + (c + d) == a + (b + (c + d))
  {
  }

  lemma KeptSoFar(cfg: Config, s: State, r: nat)
    requires Inv(cfg, s) && r < cfg.np
    ensures Took(cfg, s.stages[r], r) <= |cfg.Inflow(r)|
    ensures s.stages[r].kept == Kept(cfg.ts, cfg.Inflow(r)[..Took(cfg, s.stages[r], r)])
    ensures r + 1 == cfg.np ==> !s.stages[r].pc.Forward? && Forwarded(cfg.ts, cfg.Inflow(r)[..Took(cfg, s.stages[r], r)]) == []
  {
    hide LinkInv, RingInv, LogInv, Kept;
    assert StageInv(cfg, s, r);
    InflowSize(cfg, r);
    assert cfg.Inflow(r)[..cfg.Total(r)] == cfg.Inflow(r);
    assert cfg.Total(r) == cfg.ts + cfg.Total(r + 1);
  }

  // What stage r has forwarded, with the value about to go: taken by the next one, or on its way.
  lemma SentSoFar(cfg: Config, s: State, r: nat)
    requires Inv(cfg, s) && r + 1 < cfg.np
    ensures var t, u := s.stages[r], s.stages[r + 1];
      Took(cfg, t, r) <= |cfg.Inflow(r)| && Took(cfg, u, r + 1) <= |cfg.Inflow(r + 1)|
      && multiset(Forwarded(cfg.ts, cfg.Inflow(r)[..Took(cfg, t, r)]))
         == (if t.pc.Forward? then multiset{t.pc.carry} else multiset{})
            + (multiset(InFlight(cfg, s, r)) + multiset(cfg.Inflow(r + 1)[..Took(cfg, u, r + 1)]))
  {
    hide RingInv, LogInv, LinkInv, StageInv, Kept, Forwarded;
    var t, ys := s.stages[r], cfg.Inflow(r + 1);
    SentIsForwarded(cfg, s, r);
    LinkState(cfg, s, r);
    InflowSize(cfg, r + 1);
    var took, sent := Took(cfg, s.stages[r + 1], r + 1), Sent(cfg, t, r);
    assert ys[..sent] == ys[..took] + ys[took..sent];
    assert multiset(ys[..sent]) == multiset(ys[took..sent]) + multiset(ys[..took]);
    if t.pc.Forward? {
      assert multiset(ys[..sent] + [t.pc.carry]) == multiset{t.pc.carry} + multiset(ys[..sent]);
    }
  }

  lemma SentIsForwarded(cfg: Config, s: State, r: nat)
    requires Inv(cfg, s) && r + 1 < cfg.np
    ensures var t := s.stages[r];
      Took(cfg, t, r) <= |cfg.Inflow(r)| && Sent(cfg, t, r) <= |cfg.Inflow(r + 1)|
      && Forwarded(cfg.ts, cfg.Inflow(r)[..Took(cfg, t, r)])
         == cfg.Inflow(r + 1)[..Sent(cfg, t, r)] + (if t.pc.Forward? then [t.pc.carry] else [])
  {
    hide RingInv, LogInv, LinkInv, Kept, Forwarded;
    var t, ys := s.stages[r], cfg.Inflow(r + 1);
    KeptSoFar(cfg, s, r);
    InflowSize(cfg, r);
    InflowSize(cfg, r + 1);
    assert StageInv(cfg, s, r);
    assert cfg.Total(r) == cfg.ts + cfg.Total(r + 1);
    ForwardedPrefix(cfg.ts, cfg.Inflow(r), Took(cfg, t, r));
    if t.pc.Forward? {
      CarryIsNext(cfg, s, r);
      var sent := Sent(cfg, t, r);
      assert ys[..sent + 1] == ys[..sent] + [ys[sent]];
    }
  }

  // In every reachable state the unread input and what the stages hold make up the input; what is
  // counted as on its way is at the head of its channel.
  lemma Conservation(cfg: Config, s: State)
    requires Inv(cfg, s)
    ensures Took(cfg, s.stages[0], 0) <= |cfg.input|
    ensures multiset(cfg.input[Took(cfg, s.stages[0], 0)..]) + Held(cfg, s, 0) == multiset(cfg.input)
    ensures forall r :: 0 <= r < cfg.np - 1 ==> Nums(InFlight(cfg, s, r)) <= Chan(s, r, r + 1)
  {
    hide Inv, Held, InFlight;
    InvSize(cfg, s);
    forall r | 0 <= r < cfg.np - 1 ensures Nums(InFlight(cfg, s, r)) <= Chan(s, r, r + 1) {
      InFlightIsOnTheChannel(cfg, s, r);
    }
    HeldIsTaken(cfg, s, 0);
    var n := Took(cfg, s.stages[0], 0);
    assert cfg.input == cfg.input[..n] + cfg.input[n..];
  }

  lemma InvSize(cfg: Config, s: State)
    requires Inv(cfg, s)
    ensures cfg.Valid() && |s.stages| == cfg.np
  {
  }

  // ---------- every run ends ----------

  // A bound on the steps that stage r still has to take.
  function Left(cfg: Config, t: Stage, r: nat): nat {
    var loop := if t.i <= cfg.Total(r) then 2 * (cfg.Total(r) - t.i) else 0;
    match t.pc
    case Loop => loop + 6
    case Forward(_) => loop + 5
    case SignalEnd => 5
    case AwaitEnd => 4
    case AwaitToken => 4
    case PassToken => 3
    case SendTime => 2
    case AwaitTime => 1
    case Done => 0
  }

  function TotalLeft(cfg: Config, s: State, n: nat): nat
    requires n <= |s.stages|
  {
    if n == 0 then 0 else TotalLeft(cfg, s, n - 1) + Left(cfg, s.stages[n - 1], n - 1)
  }

  // Every step brings its stage closer to the end, and leaves every other stage where it is.
  lemma StepProgresses(cfg: Config, s: State, r: nat)
    requires Inv(cfg, s) && Enabled(cfg, s, r)
    ensures |Apply(cfg, s, r).stages| == cfg.np && r < cfg.np
    ensures Left(cfg, Apply(cfg, s, r).stages[r], r) < Left(cfg, s.stages[r], r)
    ensures forall i :: 0 <= i < cfg.np && i != r ==> Apply(cfg, s, r).stages[i] == s.stages[i]
    ensures TotalLeft(cfg, Apply(cfg, s, r), cfg.np) < TotalLeft(cfg, s, cfg.np)
  {
    hide LinkInv, RingInv, LogInv, Kept, Forwarded, Shift;
    var s' := Apply(cfg, s, r);
    assert StageInv(cfg, s, r);
    assert Left(cfg, s'.stages[r], r) < Left(cfg, s.stages[r], r);
    OneStageLess(cfg, s, s', r, cfg.np);
  }

  lemma {:induction false} OneStageLess(cfg: Config, s: State, s': State, r: nat, n: nat)
    requires r < |s.stages| == |s'.stages| && n <= |s.stages|
    requires s'.stages == s.stages[r := s'.stages[r]] && Left(cfg, s'.stages[r], r) < Left(cfg, s.stages[r], r)
    ensures TotalLeft(cfg, s', n) <= TotalLeft(cfg, s, n)
    ensures r < n ==> TotalLeft(cfg, s', n) < TotalLeft(cfg, s, n)
  {
    hide Left;
    if n > 0 {
      OneStageLess(cfg, s, s', r, n - 1);
    }
  }

  lemma {:induction false} RunLength(cfg: Config, states: seq<State>, steps: seq<nat>, t: nat)
    requires cfg.Valid() && Run(cfg, states, steps) && t < |states|
    ensures |states[t].stages| == |Init(cfg).stages| == cfg.np
    ensures t + TotalLeft(cfg, states[t], cfg.np) <= TotalLeft(cfg, Init(cfg), cfg.np)
  {
    hide Inv, Apply, Enabled, TotalLeft;
    if t > 0 {
      RunLength(cfg, states, steps, t - 1);
      RunKeepsInv(cfg, states, steps, t - 1);
      StepProgresses(cfg, states[t - 1], steps[t - 1]);
    }
  }

  // ---------- no run gets stuck ----------

  // An enabled step that does not rely on buffering: if it sends, the receiver is already
  // waiting and nothing else is on its way there.
  ghost predicate Ready(cfg: Config, s: State, r: nat) {
    && Enabled(cfg, s, r)
    && match s.stages[r].pc
       case Forward(_) =>
         r + 1 < |s.stages| && s.stages[r + 1].pc.Loop? && s.stages[r + 1].i < cfg.Total(r + 1) && Chan(s, r, r + 1) == []
       case SignalEnd => s.stages[0].pc.AwaitEnd? && Chan(s, r, 0) == []
       case PassToken => r + 1 < |s.stages| && s.stages[r + 1].pc.AwaitToken? && Chan(s, r, r + 1) == []
       case SendTime => 0 < cfg.np <= |s.stages| && s.stages[cfg.np - 1].pc.AwaitTime? && Chan(s, r, cfg.np - 1) == []
       case _ => true
  }

  ghost predicate AllDone(s: State) {
    forall r :: 0 <= r < |s.stages| ==> s.stages[r].pc.Done?
  }

  // What is on a link, by cases.
  lemma LinkState(cfg: Config, s: State, r: nat)
    requires Inv(cfg, s) && r + 1 < cfg.np
    ensures var t, u := s.stages[r], s.stages[r + 1];
      && Took(cfg, u, r + 1) <= Sent(cfg, t, r) <= cfg.Total(r + 1)
      && (Told(u) ==> Tells(t))
      && (Took(cfg, u, r + 1) < Sent(cfg, t, r) ==> HasNum(s, r, r + 1))
      && (Tells(t) && !Told(u) ==> HasNum(s, r, r + 1))
      && (Took(cfg, u, r + 1) == Sent(cfg, t, r) && (Told(u) || !Tells(t)) ==>
            Chan(s, r, r + 1) == if cfg.np == 2 then TimeInFlight(cfg, s) else [])
      && (!Told(t) ==> !t.pc.Done?)
  {
    hide StageInv, RingInv, LogInv, Link, TimeInFlight, Took, Sent;
    assert LinkInv(cfg, s, r);
    InflowSize(cfg, r + 1);
    var t, u := s.stages[r], s.stages[r + 1];
    var took, sent, token := Took(cfg, u, r + 1), Sent(cfg, t, r), Tells(t) && !Told(u);
    var time := if cfg.np == 2 then TimeInFlight(cfg, s) else [];
    if took == sent {
      LinkWithoutData(cfg, r + 1, took, token, time);
    } else {
      LinkTakesData(cfg, r + 1, took, sent, token, time);
    }
  }

  lemma NextIsForwarder(cfg: Config, s: State, r: nat)
    requires Inv(cfg, s) && r < cfg.np && s.stages[r].pc.Forward?
    ensures r + 1 < cfg.np <= |s.stages|
  {
    hide StageInv, LinkInv, RingInv, LogInv;
    CarryIsNext(cfg, s, r);
  }

  lemma ForwarderOrNext(cfg: Config, s: State, r: nat) returns (q: nat)
    requires Inv(cfg, s) && r + 1 < cfg.np && s.stages[r].pc.Forward? && !s.stages[r + 1].pc.Forward?
    ensures Ready(cfg, s, q)
  {
    hide StageInv, LinkInv, RingInv, LogInv;
    CarryIsNext(cfg, s, r);
    InflowSize(cfg, r + 1);
    LinkState(cfg, s, r);
    q := if Chan(s, r, r + 1) == [] then r else r + 1;
  }

  // A stage that has a value to forward can go on, or a later one can.
  lemma {:induction false} ForwarderMoves(cfg: Config, s: State, r: nat) returns (q: nat)
    requires Inv(cfg, s) && r < cfg.np && s.stages[r].pc.Forward?
    ensures Ready(cfg, s, q)
    decreases cfg.np - r
  {
    hide StageInv, LinkInv, RingInv, LogInv, Ready;
    NextIsForwarder(cfg, s, r);
    if s.stages[r + 1].pc.Forward? {
      q := ForwarderMoves(cfg, s, r + 1);
    } else {
      q := ForwarderOrNext(cfg, s, r);
    }
  }

  // A stage inside its loop can go on, or an earlier one can.
  lemma {:induction false} LooperMoves(cfg: Config, s: State, r: nat) returns (q: nat)
    requires Inv(cfg, s) && r < cfg.np && s.stages[r].pc.Loop?
    ensures Ready(cfg, s, q)
  {
    hide StageInv, LinkInv, RingInv, LogInv;
    if s.stages[r].i >= cfg.Total(r) || r == 0 {
      q := r;
    } else {
      LinkState(cfg, s, r - 1);
      var t := s.stages[r - 1];
      if s.stages[r].i < Sent(cfg, t, r - 1) {
        q := r;
      } else if t.pc.Loop? {
        q := LooperMoves(cfg, s, r - 1);
      } else {
        assert t.pc.Forward?;
        q := r - 1;
      }
    }
  }

  // Once all loops are over the signal moves on, from stage r or a later one.
  lemma {:induction false} TokenMoves(cfg: Config, s: State, r: nat) returns (q: nat)
    requires Inv(cfg, s) && r < cfg.np && !AllDone(s)
    requires forall i :: 0 <= i < cfg.np ==> !Looping(s.stages[i])
    requires Told(s.stages[r])
    ensures Ready(cfg, s, q)
    decreases cfg.np - r
  {
    hide StageInv, LinkInv, RingInv, LogInv;
    Role(cfg, s, r);
    if r + 1 < cfg.np {
      Role(cfg, s, r + 1);
      LinkState(cfg, s, r);
      if Told(s.stages[r + 1]) {
        q := TokenMoves(cfg, s, r + 1);
      } else if Tells(s.stages[r]) {
        LastHasSignalled(cfg, s, r + 1);
        q := r + 1;
      } else {
        LastHasSignalled(cfg, s, r + 1);
        q := r;
      }
    } else {
      q := TimeMoves(cfg, s);
    }
  }

  // The places that stage r can be in after its loop.
  lemma Role(cfg: Config, s: State, r: nat)
    requires Inv(cfg, s) && r < cfg.np
    ensures var t := s.stages[r];
      && (t.pc.AwaitEnd? || t.pc.SendTime? ==> r == 0)
      && (t.pc.SignalEnd? || t.pc.AwaitTime? ==> r + 1 == cfg.np)
      && (t.pc.AwaitToken? ==> r > 0)
      && (t.pc.PassToken? ==> r + 1 < cfg.np)
  {
    hide LinkInv, RingInv, LogInv, Kept;
    assert StageInv(cfg, s, r);
  }

  // If some stage was told to print, the last one has signalled.
  lemma {:induction false} LastHasSignalled(cfg: Config, s: State, r: nat)
    requires Inv(cfg, s) && 0 < r < cfg.np && Told(s.stages[r - 1]) && !Told(s.stages[r]) && !Looping(s.stages[r])
    ensures s.stages[r].pc.AwaitToken?
  {
    hide StageInv, LinkInv, Kept;
    Role(cfg, s, r);
    assert Told(s.stages[0]);
  }

  // The last stage was told to print: only the time is left.
  lemma TimeMoves(cfg: Config, s: State) returns (q: nat)
    requires Inv(cfg, s) && !AllDone(s) && Told(s.stages[cfg.np - 1])
    requires forall i :: 0 <= i < cfg.np ==> !Looping(s.stages[i])
    ensures Ready(cfg, s, q)
  {
    hide StageInv, LinkInv, LogInv;
    var last := cfg.np - 1;
    EarlierTold(cfg, s, last);
    Role(cfg, s, last);
    Role(cfg, s, 0);
    LinkState(cfg, s, 0);
    assert RingInv(cfg, s);
    if s.stages[last].pc.Done? {
      forall r | 0 <= r < cfg.np ensures s.stages[r].pc.Done? {
        Role(cfg, s, r);
      }
      assert false;
    }
    q := if s.stages[0].pc.Done? then last else 0;
  }

  lemma {:induction false} EarlierTold(cfg: Config, s: State, r: nat)
    requires Inv(cfg, s) && r < cfg.np && Told(s.stages[r])
    ensures forall q :: 0 <= q < r ==> Tells(s.stages[q])
  {
    hide StageInv, LinkInv, RingInv, LogInv;
    if r > 0 {
      LinkState(cfg, s, r - 1);
      EarlierTold(cfg, s, r - 1);
    }
  }

  // Until every stage is done some step is ready, even if every send waits for its receiver.
  lemma NeverStuck(cfg: Config, s: State) returns (r: nat)
    requires Inv(cfg, s) && !AllDone(s)
    ensures Ready(cfg, s, r)
  {
    hide StageInv, LinkInv, LogInv;
    if i :| 0 <= i < cfg.np && s.stages[i].pc.Loop? {
      hide Ready;
      r := LooperMoves(cfg, s, i);
    } else if i :| 0 <= i < cfg.np && s.stages[i].pc.Forward? {
      hide Ready;
      r := ForwarderMoves(cfg, s, i);
    } else if Told(s.stages[0]) {
      hide Ready;
      r := TokenMoves(cfg, s, 0);
    } else {
      Role(cfg, s, 0);
      Role(cfg, s, cfg.np - 1);
      EverythingUntold(cfg, s, cfg.np - 1);
      assert RingInv(cfg, s);
      r := if Signals(s.stages[cfg.np - 1]) then 0 else cfg.np - 1;
    }
  }

  lemma EverythingUntold(cfg: Config, s: State, r: nat)
    requires Inv(cfg, s) && r < cfg.np && !Told(s.stages[0])
    ensures !Told(s.stages[r])
  {
    hide StageInv, LinkInv, RingInv, LogInv;
    if Told(s.stages[r]) {
      EarlierTold(cfg, s, r);
    }
  }

  // ---------- what a run leaves ----------

  // In every reachable state the output so far is a prefix of the sorted input, and a stage
  // that has left its loop holds its slice of it.
  lemma OutputSoFar(cfg: Config, s: State)
    requires Inv(cfg, s)
    ensures Offset(cfg, |s.log|) <= |cfg.input| && Lines(s.log) == Sort(cfg.input)[..Offset(cfg, |s.log|)]
    ensures forall r :: 0 <= r < cfg.np && !Looping(s.stages[r]) ==>
              Offset(cfg, r) + cfg.ts <= |cfg.input|
              && s.stages[r].kept == Sort(cfg.input)[Offset(cfg, r)..Offset(cfg, r) + cfg.ts]
  {
    hide LinkInv, RingInv, Kept, Sort;
    LinesArePrefix(cfg, s.log);
    forall r | 0 <= r < cfg.np && !Looping(s.stages[r])
      ensures Offset(cfg, r) + cfg.ts <= |cfg.input|
      ensures s.stages[r].kept == Sort(cfg.input)[Offset(cfg, r)..Offset(cfg, r) + cfg.ts]
    {
      assert StageInv(cfg, s, r);
      KeptIsSlice(cfg, r);
    }
  }

  lemma FinalOutput(cfg: Config, s: State)
    requires Inv(cfg, s) && AllDone(s)
    ensures Lines(s.log) == Sort(cfg.input)
  {
    hide StageInv, LinkInv, RingInv, Sort, Kept;
    assert Told(s.stages[cfg.np - 1]);
    OutputSoFar(cfg, s);
    OffsetAndTotal(cfg, cfg.np);
    assert |s.log| == cfg.np;
  }

  // Every run that cannot go on has all stages done and has printed the sorted input.
  lemma RunSorts(cfg: Config, states: seq<State>, steps: seq<nat>)
    requires cfg.Valid() && Run(cfg, states, steps)
    requires forall r :: !Enabled(cfg, states[|steps|], r)
    ensures AllDone(states[|steps|]) && Lines(states[|steps|].log) == Sort(cfg.input)
    ensures |Init(cfg).stages| == cfg.np && |steps| <= TotalLeft(cfg, Init(cfg), cfg.np)
  {
    hide Inv, Enabled, Apply, AllDone, TotalLeft, Lines, Sort;
    var s := states[|steps|];
    RunKeepsInv(cfg, states, steps, |steps|);
    if !AllDone(s) {
      var r := NeverStuck(cfg, s);
      ReadyIsEnabled(cfg, s, r);
      assert false;
    }
    FinalOutput(cfg, s);
    RunLength(cfg, states, steps, |steps|);
  }

  lemma ReadyIsEnabled(cfg: Config, s: State, r: nat)
    requires Ready(cfg, s, r)
    ensures Enabled(cfg, s, r)
  {
  }
}
