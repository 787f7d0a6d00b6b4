// Whole runs of the divide-and-conquer sort (PPD/MPI/T3/dc.c): they end, they never get
// stuck, and they leave the sorted input at the root.
module BinomialRuns {
  import opened SortSpec
  import opened BinomialTree
  import opened BinomialSort
  import opened BinomialProof

  // A run from the start: any enabled step may come next.
  ghost predicate Run(cfg: Config, states: seq<State>, steps: seq<(nat, Act)>) {
    && |states| == |steps| + 1
    && states[0] == Init(cfg)
    && forall t :: 0 <= t < |steps| ==>
         Enabled(cfg, states[t], steps[t].0, steps[t].1)
         && states[t + 1] == Apply(cfg, states[t], steps[t].0, steps[t].1)
  }

  lemma {:induction false} RunKeepsInv(cfg: Config, states: seq<State>, steps: seq<(nat, Act)>, t: nat)
    requires cfg.Valid() && Run(cfg, states, steps) && t < |states|
    ensures Inv(cfg, states[t])
  {
    hide Inv, Apply, Enabled;
    if t == 0 {
      InitHolds(cfg);
    } else {
      RunKeepsInv(cfg, states, steps, t - 1);
      StepKeepsInv(cfg, states[t - 1], steps[t - 1].0, steps[t - 1].1);
    }
  }

  // ---------- every run ends ----------

  // The steps that rank r still has to take.
  ghost function Left(cfg: Config, s: State, r: nat): nat
    requires r < cfg.Ranks() && r < |s.procs|
  {
    var p, own := s.procs[r], cfg.k - Level(r, cfg.k);
    var fan := if p.level <= cfg.k then 2 * (cfg.k - p.level) else 0;
    match p.pc
    case AwaitTask => 3 * own + 4
    case AwaitLevel => 3 * own + 3
    case Split => fan + own + 2
    case Announce(_) => fan + own + 3
    case Collect => Missing(cfg, s, r, Level(r, cfg.k)) + 1
    case Done => 0
  }

  ghost function TotalLeft(cfg: Config, s: State, n: nat): nat
    requires n <= cfg.Ranks() && n <= |s.procs|
  {
    if n == 0 then 0 else TotalLeft(cfg, s, n - 1) + Left(cfg, s, n - 1)
  }

  lemma LeftElsewhere(cfg: Config, s: State, r: nat, act: Act, q: nat)
    requires Inv(cfg, s) && Enabled(cfg, s, r, act) && q != r && q < cfg.Ranks()
    ensures |Apply(cfg, s, r, act).procs| == |s.procs|
    ensures Left(cfg, Apply(cfg, s, r, act), q) == Left(cfg, s, q)
  {
    hide Apply, EdgeInv, NodeInv, Missing;
    var s', from := Apply(cfg, s, r, act), Level(q, cfg.k);
    StepTouches(cfg, s, r, act);
    forall m | from <= m < cfg.k ensures Replied(s', q, m) == Replied(s, q, m) {
      Pow2Grows(from, m);
      if act.Finish? && q + Pow2(m) == r {
        SourceIsParent(cfg, s, q, m);
      }
      RepliesElsewhere(cfg, s, r, act, q, m);
    }
    GatheredFrame(cfg, s, s', q, from);
  }

  lemma LeftHere(cfg: Config, s: State, r: nat, act: Act)
    requires Inv(cfg, s) && Enabled(cfg, s, r, act) && r < cfg.Ranks()
    ensures |Apply(cfg, s, r, act).procs| == |s.procs|
    ensures Left(cfg, Apply(cfg, s, r, act), r) + 1 == Left(cfg, s, r)
  {
    hide EdgeInv, Merging.Merged, Sort, Gathered, Replied;
    match act
    case SortOwn => LeftSorting(cfg, s, r);
    case TakeReply(src) => LeftReplying(cfg, s, src, r);
    case _ => LeftMoving(cfg, s, r, act);
  }

  lemma LeftMoving(cfg: Config, s: State, r: nat, act: Act)
    requires Inv(cfg, s) && Enabled(cfg, s, r, act) && r < cfg.Ranks() && !act.SortOwn? && !act.TakeReply?
    ensures Left(cfg, Apply(cfg, s, r, act), r) + 1 == Left(cfg, s, r)
  {
    hide EdgeInv, Sort, Gathered, Replied;
    assert NodeInv(cfg, s, r);
    match act
    case TakeTask(src) =>
    case TakeLevel => var m := MessageInto(cfg, s, s.procs[r].source, r);
    case SendHalf => SplitBlock(cfg, s, r);
    case SendLevel =>
    case Finish => FinishedBlock(cfg, s, r);
  }

  lemma LeftSorting(cfg: Config, s: State, r: nat)
    requires Inv(cfg, s) && Enabled(cfg, s, r, SortOwn) && r < cfg.Ranks()
    ensures Left(cfg, Apply(cfg, s, r, SortOwn), r) + 1 == Left(cfg, s, r)
  {
    hide EdgeInv, Sort, Gathered;
    var p, from, s' := s.procs[r], Level(r, cfg.k), Apply(cfg, s, r, SortOwn);
    assert NodeInv(cfg, s, r);
    ShareIsPositive(cfg, p.level);
    forall m | from <= m < cfg.k ensures !Replied(s', r, m) {
      NotYetReplied(cfg, s, r, m);
    }
    GatheredNone(cfg, s', r, from);
  }

  lemma LeftReplying(cfg: Config, s: State, src: nat, r: nat)
    requires Inv(cfg, s) && Enabled(cfg, s, r, TakeReply(src)) && r < cfg.Ranks()
    ensures Left(cfg, Apply(cfg, s, r, TakeReply(src)), r) + 1 == Left(cfg, s, r)
  {
    hide EdgeInv, NodeInv, Sort, Gathered, Merging.Merged;
    var from, s' := Level(r, cfg.k), Apply(cfg, s, r, TakeReply(src));
    var l := MessageInto(cfg, s, src, r);
    forall m | from <= m < cfg.k && m != l ensures Replied(s', r, m) == Replied(s, r, m) {
      if Pow2(m) == Pow2(l) { Pow2Injective(m, l); }
    }
    GatheredAdds(cfg, s, s', r, from, l);
  }

  // Every step uses up exactly one of the steps that are left.
  lemma {:induction false} StepUsesOne(cfg: Config, s: State, r: nat, act: Act, n: nat)
    requires Inv(cfg, s) && Enabled(cfg, s, r, act) && n <= cfg.Ranks() && r < cfg.Ranks()
    ensures |Apply(cfg, s, r, act).procs| == |s.procs|
    ensures TotalLeft(cfg, Apply(cfg, s, r, act), n) + (if r < n then 1 else 0) == TotalLeft(cfg, s, n)
  {
    hide Apply, Enabled, Inv, Left;
    StepTouches(cfg, s, r, act);
    InvSize(cfg, s);
    if n > 0 {
      StepUsesOne(cfg, s, r, act, n - 1);
      if r == n - 1 { LeftHere(cfg, s, r, act); } else { LeftElsewhere(cfg, s, r, act, n - 1); }
    }
  }

  lemma InvSize(cfg: Config, s: State)
    requires Inv(cfg, s)
    ensures cfg.Valid() && |s.procs| == cfg.Ranks()
  {
  }

  // The number of steps of a run, plus what is left, is the same number for all runs.
  lemma {:induction false} RunLength(cfg: Config, states: seq<State>, steps: seq<(nat, Act)>, t: nat)
    requires cfg.Valid() && Run(cfg, states, steps) && t < |states|
    ensures |states[t].procs| == |Init(cfg).procs| == cfg.Ranks()
    ensures t + TotalLeft(cfg, states[t], cfg.Ranks()) == TotalLeft(cfg, Init(cfg), cfg.Ranks())
  {
    hide Inv, Apply, Enabled, TotalLeft;
    if t > 0 {
      RunLength(cfg, states, steps, t - 1);
      RunKeepsInv(cfg, states, steps, t - 1);
      EnabledRank(cfg, states[t - 1], steps[t - 1].0, steps[t - 1].1);
      StepUsesOne(cfg, states[t - 1], steps[t - 1].0, steps[t - 1].1, cfg.Ranks());
    }
  }

  // ---------- no run gets stuck ----------

  // An enabled step that does not rely on buffering: if it sends, the receiver is already
  // waiting for this very message.
  ghost predicate Ready(cfg: Config, s: State, r: nat, act: Act) {
    && Enabled(cfg, s, r, act)
    && var p := s.procs[r]; match act
       case SendHalf =>
         var c := r + Pow2(p.level);
         c < |s.procs| && s.procs[c].pc.AwaitTask? && Chan(s, r, c) == []
       case SendLevel =>
         var c := p.pc.child;
         c < |s.procs| && s.procs[c].pc.AwaitLevel? && s.procs[c].source == r && Chan(s, r, c) == []
       case Finish =>
         r > 0 ==> p.source < |s.procs| && s.procs[p.source].pc.Collect?
                   && MoreReplies(cfg, s.procs[p.source], p.source) && Chan(s, r, p.source) == []
       case _ => true
  }

  ghost predicate AllDone(s: State) {
    forall r :: 0 <= r < |s.procs| ==> s.procs[r].pc.Done?
  }

  // Both loop guards of the program mean the same: the root's sizes and the others' counts
  // stop the loop exactly when every child has replied.
  lemma GuardsAgree(cfg: Config, s: State, r: nat)
    requires Inv(cfg, s) && r < cfg.Ranks() && s.procs[r].pc.Collect?
    ensures MoreReplies(cfg, s.procs[r], r) <==> Missing(cfg, s, r, Level(r, cfg.k)) > 0
    ensures !MoreReplies(cfg, s.procs[r], r) <==> forall m :: Level(r, cfg.k) <= m < cfg.k ==> Replied(s, r, m)
  {
    hide EdgeInv, Replied, Gathered;
    assert NodeInv(cfg, s, r);
    GatheredAll(cfg, s, r, Level(r, cfg.k));
    AllReplied(cfg, s, r, Level(r, cfg.k));
    assert |s.procs[r].buf| == |multiset(s.procs[r].buf)|;
  }

  // A rank in its fan-out loop can go on, or its child can.
  lemma SplitterMoves(cfg: Config, s: State, r: nat) returns (q: nat, act: Act)
    requires Inv(cfg, s) && r < cfg.Ranks() && (s.procs[r].pc.Split? || s.procs[r].pc.Announce?)
    ensures Ready(cfg, s, q, act)
  {
    hide NodeInv, EdgeInv, Apply;
    var p := s.procs[r];
    q := r;
    if p.pc.Split? {
      if |p.buf| <= cfg.ts {
        act := SortOwn;
      } else {
        SplitBlock(cfg, s, r);
        ChildIsWaiting(cfg, s, r, p.level);
        act := SendHalf;
      }
    } else {
      AnnouncedChild(cfg, s, r);
      ChildHasItsTask(cfg, s, r, p.level - 1);
      if s.procs[p.pc.child].pc.AwaitTask? {
        q, act := p.pc.child, TakeTask(r);
      } else {
        act := SendLevel;
      }
    }
  }

  lemma ChildIsWaiting(cfg: Config, s: State, r: nat, l: nat)
    requires Inv(cfg, s) && l < cfg.k && r < Pow2(l) && r < cfg.Ranks() && s.procs[r].pc.Split? && s.procs[r].level == l
    ensures r + Pow2(l) < cfg.Ranks() && s.procs[r + Pow2(l)].pc.AwaitTask? && Chan(s, r, r + Pow2(l)) == []
  {
    hide NodeInv;
    ChildOf(r, l, cfg.k);
    assert EdgeInv(cfg, s, r, l);
  }

  lemma ChildHasItsTask(cfg: Config, s: State, r: nat, l: nat)
    requires Inv(cfg, s) && l < cfg.k && r < Pow2(l) && r < cfg.Ranks()
    requires s.procs[r].pc == Announce(r + Pow2(l)) && s.procs[r].level == l + 1
    ensures r + Pow2(l) < cfg.Ranks()
    ensures var low := s.procs[r + Pow2(l)];
      if low.pc.AwaitTask? then Chan(s, r, r + Pow2(l)) != []
      else low.pc.AwaitLevel? && low.source == r && Chan(s, r, r + Pow2(l)) == []
  {
    hide NodeInv;
    ChildOf(r, l, cfg.k);
    assert EdgeInv(cfg, s, r, l);
  }

  // A rank that waits for its task or its level can go on, or a smaller rank can.
  lemma {:induction false} WaiterMoves(cfg: Config, s: State, r: nat) returns (q: nat, act: Act)
    requires Inv(cfg, s) && r < cfg.Ranks() && !Busy(s.procs[r].pc)
    ensures Ready(cfg, s, q, act)
  {
    hide NodeInv;
    RootIsBusy(cfg, s);
    var p, l := Parent(r, cfg.k), Level(r, cfg.k) - 1;
    ChildOf(p, l, cfg.k);
    assert EdgeInv(cfg, s, p, l);
    if Chan(s, p, r) != [] {
      q, act := r, if s.procs[r].pc.AwaitTask? then TakeTask(p) else TakeLevel;
    } else if !Busy(s.procs[p].pc) {
      q, act := WaiterMoves(cfg, s, p);
    } else {
      FinishedLevel(cfg, s, p);
      q, act := SplitterMoves(cfg, s, p);
    }
  }

  lemma RootIsBusy(cfg: Config, s: State)
    requires Inv(cfg, s)
    ensures 0 < cfg.Ranks() && Busy(s.procs[0].pc)
  {
    assert NodeInv(cfg, s, 0);
  }

  lemma FinishedLevel(cfg: Config, s: State, r: nat)
    requires Inv(cfg, s) && r < cfg.Ranks()
    ensures s.procs[r].pc.Collect? || s.procs[r].pc.Done? ==> s.procs[r].level == cfg.k
  {
    assert NodeInv(cfg, s, r);
  }

  // Some child of a rank that still has replies to take has not replied.
  lemma MissingChild(cfg: Config, s: State, r: nat) returns (m: nat)
    requires Inv(cfg, s) && r < cfg.Ranks() && s.procs[r].pc.Collect? && MoreReplies(cfg, s.procs[r], r)
    ensures m < cfg.k && r < Pow2(m) && r + Pow2(m) < cfg.Ranks() && !Replied(s, r, m)
  {
    GuardsAgree(cfg, s, r);
    hide NodeInv, EdgeInv, Missing, MoreReplies, Replied, Inv;
    m :| Level(r, cfg.k) <= m < cfg.k && !Replied(s, r, m);
    LevelBelow(r, m, cfg.k);
    ChildOf(r, m, cfg.k);
  }

  // The greatest rank that is not done yet can go on once nobody waits or splits.
  lemma CollectorMoves(cfg: Config, s: State, r: nat) returns (q: nat, act: Act)
    requires Inv(cfg, s) && r < cfg.Ranks() && s.procs[r].pc.Collect?
    requires forall i :: 0 <= i < cfg.Ranks() ==> s.procs[i].pc.Collect? || s.procs[i].pc.Done?
    requires forall i :: r < i < cfg.Ranks() ==> s.procs[i].pc.Done?
    ensures Ready(cfg, s, q, act)
  {
    hide NodeInv, EdgeInv, Missing, Apply, MoreReplies, Pow2;
    q := r;
    if MoreReplies(cfg, s.procs[r], r) {
      var m := MissingChild(cfg, s, r);
      act := TakeReply(r + Pow2(m));
    } else {
      act := Finish;
      if r > 0 {
        ParentCollects(cfg, s, r);
      }
    }
  }

  lemma ParentInTree(r: nat, k: nat)
    requires 0 < r < Pow2(k)
    ensures var p, l := Parent(r, k), Level(r, k) - 1;
      p < r && 0 <= l < k && p + Pow2(l) == r && p < Pow2(l) && p < Pow2(k) && Level(p, k) <= l
  {
    var p, l := Parent(r, k), Level(r, k) - 1;
    ChildOf(p, l, k);
    LevelBelow(p, l, k);
    hide Level;
  }

  // A rank that collects has its task from its parent, and no reply on its way.
  lemma EdgeOfCollector(cfg: Config, s: State, p: nat, l: nat)
    requires cfg.Valid() && |s.procs| == cfg.Ranks() && l < cfg.k && p < Pow2(l) && EdgeInv(cfg, s, p, l)
    requires p + Pow2(l) < cfg.Ranks() && p < cfg.Ranks() && s.procs[p + Pow2(l)].pc.Collect?
    requires s.procs[p].pc.Collect? || s.procs[p].pc.Done?
    ensures s.procs[p + Pow2(l)].source == p && s.procs[p].pc.Collect? && Chan(s, p + Pow2(l), p) == [] && !Replied(s, p, l)
  {
    hide Sort, Config.Block, Config.Valid, Pow2;
  }

  lemma ParentIsThere(cfg: Config, s: State, r: nat)
    requires Inv(cfg, s) && 0 < r < cfg.Ranks() && s.procs[r].pc.Collect?
    requires s.procs[Parent(r, cfg.k)].pc.Collect? || s.procs[Parent(r, cfg.k)].pc.Done?
    ensures var p, l := Parent(r, cfg.k), Level(r, cfg.k) - 1;
      && s.procs[r].source == p < r && s.procs[p].pc.Collect? && Chan(s, r, p) == [] && p + Pow2(l) == r
      && l >= 0 && !Replied(s, p, l) && Level(p, cfg.k) <= l < cfg.k
  {
    hide NodeInv, EdgeInv, Replied, Level, Pow2;
    var p, l := Parent(r, cfg.k), Level(r, cfg.k) - 1;
    ParentInTree(r, cfg.k);
    assert EdgeInv(cfg, s, p, l);
    EdgeOfCollector(cfg, s, p, l);
  }

  lemma ParentCollects(cfg: Config, s: State, r: nat)
    requires Inv(cfg, s) && 0 < r < cfg.Ranks() && s.procs[r].pc.Collect?
    requires s.procs[Parent(r, cfg.k)].pc.Collect? || s.procs[Parent(r, cfg.k)].pc.Done?
    ensures var p := s.procs[r].source;
      p < r && s.procs[p].pc.Collect? && MoreReplies(cfg, s.procs[p], p) && Chan(s, r, p) == []
  {
    ParentIsThere(cfg, s, r);
    hide NodeInv, EdgeInv, Missing, Replied, MoreReplies;
    GuardsAgree(cfg, s, Parent(r, cfg.k));
  }

  // Until every rank is done some step is ready, even if every send waits for its receiver.
  lemma NeverStuck(cfg: Config, s: State) returns (r: nat, act: Act)
    requires Inv(cfg, s) && !AllDone(s)
    ensures Ready(cfg, s, r, act)
  {
    hide NodeInv, EdgeInv, Ready;
    if i :| 0 <= i < cfg.Ranks() && !Busy(s.procs[i].pc) {
      r, act := WaiterMoves(cfg, s, i);
    } else if i :| 0 <= i < cfg.Ranks() && (s.procs[i].pc.Split? || s.procs[i].pc.Announce?) {
      r, act := SplitterMoves(cfg, s, i);
    } else {
      var i := LastNotDone(s, |s.procs|);
      r, act := CollectorMoves(cfg, s, i);
    }
  }

  lemma {:induction false} LastNotDone(s: State, n: nat) returns (r: nat)
    requires n <= |s.procs| && exists i :: 0 <= i < n && !s.procs[i].pc.Done?
    ensures r < n && !s.procs[r].pc.Done? && forall i :: r < i < n ==> s.procs[i].pc.Done?
  {
    if !s.procs[n - 1].pc.Done? {
      r := n - 1;
    } else {
      r := LastNotDone(s, n - 1);
    }
  }

  // ---------- what a run leaves ----------

  // When a rank sorts its own part, that part is its leaf block, which came from its parent.
  lemma LeafWork(cfg: Config, s: State, r: nat)
    requires Inv(cfg, s) && Enabled(cfg, s, r, SortOwn)
    ensures r < cfg.Ranks() && s.procs[r].buf == cfg.Block(r, cfg.k)
    ensures r > 0 ==> s.procs[r].source == Parent(r, cfg.k)
  {
    hide EdgeInv;
    var p := s.procs[r];
    assert NodeInv(cfg, s, r);
    ShareIsPositive(cfg, p.level);
    if r > 0 {
      SourceIsParent(cfg, s, Parent(r, cfg.k), Level(r, cfg.k) - 1);
    }
  }

  // Every run that cannot go on, in any order of steps and arrivals, has all ranks done, no
  // message left, and the sorted input at the root; and it has taken the number of steps that
  // every complete run takes.
  lemma RunSorts(cfg: Config, states: seq<State>, steps: seq<(nat, Act)>)
    requires cfg.Valid() && Run(cfg, states, steps)
    requires forall r, act :: !Enabled(cfg, states[|steps|], r, act)
    ensures var s := states[|steps|];
      && AllDone(s) && |s.procs| == cfg.Ranks() && s.procs[0].buf == Sort(cfg.input)
      && forall i, j :: Chan(s, i, j) == []
    ensures |Init(cfg).procs| == cfg.Ranks() && |steps| == TotalLeft(cfg, Init(cfg), cfg.Ranks())
  {
    var s := states[|steps|];
    RunKeepsInv(cfg, states, steps, |steps|);
    if !AllDone(s) {
      var r, act := NeverStuck(cfg, s);
      assert false;
    }
    DoneIsSorted(cfg, s);
    RunLength(cfg, states, steps, |steps|);
    NothingLeft(cfg, s, cfg.Ranks());
  }

  lemma DoneIsSorted(cfg: Config, s: State)
    requires Inv(cfg, s) && AllDone(s)
    ensures s.procs[0].buf == Sort(cfg.input)
    ensures forall i, j :: Chan(s, i, j) == []
  {
    hide NodeInv, EdgeInv, Sort;
    assert s.procs[0].buf == Sort(cfg.input) by { RootResult(cfg, s); }
    forall i, j ensures Chan(s, i, j) == [] {
      NoMessageAtTheEnd(cfg, s, i, j);
    }
  }

  lemma RootResult(cfg: Config, s: State)
    requires Inv(cfg, s) && s.procs[0].pc.Done?
    ensures s.procs[0].buf == Sort(cfg.input)
  {
    assert NodeInv(cfg, s, 0);
    assert cfg.Block(0, 0) == cfg.input;
  }

  lemma NoMessageAtTheEnd(cfg: Config, s: State, i: nat, j: nat)
    requires Inv(cfg, s) && AllDone(s)
    ensures Chan(s, i, j) == []
  {
    hide NodeInv, Sort;
    if l :| IsChild(cfg, i, l, j) {
      ChildOf(i, l, cfg.k);
      assert EdgeInv(cfg, s, i, l);
    } else if l :| IsChild(cfg, j, l, i) {
      ChildOf(j, l, cfg.k);
      assert EdgeInv(cfg, s, j, l);
    }
  }

  lemma {:induction false} NothingLeft(cfg: Config, s: State, n: nat)
    requires n <= cfg.Ranks() == |s.procs| && AllDone(s)
    ensures TotalLeft(cfg, s, n) == 0
  {
    if n > 0 {
      NothingLeft(cfg, s, n - 1);
    }
  }

  // ---------- the empty input ----------

  // With nothing to sort the root hands out no tasks, and the others wait for ever.
  ghost predicate OnlyRootMoves(cfg: Config, s: State) {
    && |s.procs| == cfg.Ranks() && s.chans == map[]
    && s.procs[0].buf == [] && !s.procs[0].pc.AwaitTask? && !s.procs[0].pc.AwaitLevel? && !s.procs[0].pc.Announce?
    && forall r :: 1 <= r < |s.procs| ==> s.procs[r].pc.AwaitTask?
  }

  lemma OnlyRootKeeps(cfg: Config, s: State, r: nat, act: Act)
    requires cfg.input == [] && OnlyRootMoves(cfg, s) && Enabled(cfg, s, r, act)
    ensures OnlyRootMoves(cfg, Apply(cfg, s, r, act)) && r == 0
  {
    assert forall i, j :: Chan(s, i, j) == [];
    assert Sort([]) == [];
  }

  // Without values no run of two or more ranks ends with all of them done: the condition that there
  // is at least one value for each rank cannot be dropped.
  lemma EmptyInputHangs(cfg: Config, states: seq<State>, steps: seq<(nat, Act)>, t: nat)
    requires cfg.input == [] && cfg.k >= 1 && Run(cfg, states, steps) && t < |states|
    ensures OnlyRootMoves(cfg, states[t]) && !AllDone(states[t])
  {
    assert cfg.Ranks() >= 2 by { assert Pow2(cfg.k) == 2 * Pow2(cfg.k - 1); }
    EmptyRunKeeps(cfg, states, steps, t);
    assert states[t].procs[1].pc.AwaitTask?;
  }

  // One rank alone has nothing to wait for.
  lemma AloneIsDone(cfg: Config, s: State)
    requires cfg.input == [] && cfg.k == 0 && OnlyRootMoves(cfg, s) && forall r, act :: !Enabled(cfg, s, r, act)
    ensures AllDone(s) && s.procs[0].buf == Sort(cfg.input)
  {
    assert Sort([]) == [];
    assert |s.procs| == 1;
    assert !Enabled(cfg, s, 0, SortOwn);
    assert !Enabled(cfg, s, 0, SendHalf);
    assert !Enabled(cfg, s, 0, Finish);
  }

  lemma {:induction false} EmptyRunKeeps(cfg: Config, states: seq<State>, steps: seq<(nat, Act)>, t: nat)
    requires cfg.input == [] && Run(cfg, states, steps) && t < |states|
    ensures OnlyRootMoves(cfg, states[t])
  {
    if t > 0 {
      hide OnlyRootMoves, Apply, Enabled;
      EmptyRunKeeps(cfg, states, steps, t - 1);
      OnlyRootKeeps(cfg, states[t - 1], steps[t - 1].0, steps[t - 1].1);
    }
  }

  lemma {:induction false} ShareOfNothing(cfg: Config, l: nat)
    ensures cfg.ts == 0 ==> cfg.Share(l) == 0
    ensures cfg.ts >= 1 ==> cfg.Share(l) >= 1
    decreases cfg.k - l
  {
    if l < cfg.k {
      ShareOfNothing(cfg, l + 1);
    }
  }

  // Every run that cannot go on has all ranks done if and only if there is a value to sort or only one
  // rank, and then the root holds the sorted input.
  lemma EndsExactly(cfg: Config, states: seq<State>, steps: seq<(nat, Act)>)
    requires |cfg.input| == cfg.Share(0) && Run(cfg, states, steps)
    requires forall r, act :: !Enabled(cfg, states[|steps|], r, act)
    ensures AllDone(states[|steps|]) <==> cfg.input != [] || cfg.k == 0
    ensures AllDone(states[|steps|]) ==> |states[|steps|].procs| > 0 && states[|steps|].procs[0].buf == Sort(cfg.input)
  {
    hide Run, Enabled, Sort;
    ShareOfNothing(cfg, 0);
    if cfg.input != [] {
      RunSorts(cfg, states, steps);
    } else if cfg.k == 0 {
      assert |states| == |steps| + 1 by { RunSize(cfg, states, steps); }
      EmptyRunKeeps(cfg, states, steps, |steps|);
      AloneIsDone(cfg, states[|steps|]);
    } else {
      RunSize(cfg, states, steps);
      EmptyInputHangs(cfg, states, steps, |steps|);
    }
  }

  lemma RunSize(cfg: Config, states: seq<State>, steps: seq<(nat, Act)>)
    requires Run(cfg, states, steps)
    ensures |states| == |steps| + 1
  {}
}
