// What every step of the divide-and-conquer sort keeps, in every order of arrival
// (PPD/MPI/T3/dc.c).
module BinomialProof {
  import opened SortSpec
  import opened BinomialTree
  import opened Merging
  import opened BinomialSort

  lemma InitHolds(cfg: Config)
    requires cfg.Valid()
    ensures Inv(cfg, Init(cfg))
  {
    var s := Init(cfg);
    forall r | 0 <= r < cfg.Ranks() ensures NodeInv(cfg, s, r) {
      if r == 0 {
        assert cfg.Block(0, 0) == cfg.input;
      }
    }
    forall p, l | 0 <= l < cfg.k && 0 <= p < Pow2(l) ensures EdgeInv(cfg, s, p, l) {
      ChildOf(p, l, cfg.k);
    }
  }

  // ---------- what a step of one rank leaves alone ----------

  // s' differs from s only at rank r and in the channels into and out of r.
  ghost predicate OnlyTouches(s: State, s': State, r: nat) {
    && |s'.procs| == |s.procs|
    && (forall q :: 0 <= q < |s.procs| && q != r ==> s'.procs[q] == s.procs[q])
    && (forall i, j :: i != r && j != r ==> Chan(s', i, j) == Chan(s, i, j))
  }

  // A step of rank r touches only r, takes only from channels into r, fills only channels out of r.
  lemma StepTouches(cfg: Config, s: State, r: nat, act: Act)
    requires Enabled(cfg, s, r, act)
    ensures OnlyTouches(s, Apply(cfg, s, r, act), r)
  {
  }

  // An edge that does not meet rank r is as before.
  lemma EdgeFrame(cfg: Config, s: State, s': State, r: nat, p: nat, l: nat)
    requires cfg.Valid() && |s.procs| == cfg.Ranks() && l < cfg.k && p < Pow2(l)
    requires OnlyTouches(s, s', r) && EdgeInv(cfg, s, p, l) && p != r && p + Pow2(l) != r
    ensures EdgeInv(cfg, s', p, l)
  {
    ChildOf(p, l, cfg.k);
  }

  // A step that does not take a reply does not change who has replied.
  lemma {:induction false} GatheredFrame(cfg: Config, s: State, s': State, q: nat, l: nat)
    requires cfg.Valid() && l <= cfg.k && q < Pow2(l)
    requires forall m :: l <= m < cfg.k ==> Replied(s', q, m) == Replied(s, q, m)
    ensures Gathered(cfg, s', q, l) == Gathered(cfg, s, q, l)
    ensures Missing(cfg, s', q, l) == Missing(cfg, s, q, l)
    decreases cfg.k - l
  {
    hide Replied;
    if l < cfg.k {
      Pow2Grows(l, l + 1);
      GatheredFrame(cfg, s, s', q, l + 1);
    }
  }

  // Taking the reply of level l0 adds its block and leaves one reply less to wait for.
  lemma {:induction false} GatheredAdds(cfg: Config, s: State, s': State, q: nat, l: nat, l0: nat)
    requires cfg.Valid() && l <= l0 < cfg.k && q < Pow2(l)
    requires forall m :: l <= m < cfg.k && m != l0 ==> Replied(s', q, m) == Replied(s, q, m)
    requires !Replied(s, q, l0) && Replied(s', q, l0)
    ensures Pow2(l) <= Pow2(l0)
    ensures q < Pow2(l0) && q + Pow2(l0) < Pow2(l0 + 1)
    ensures Gathered(cfg, s', q, l) == Gathered(cfg, s, q, l) + multiset(cfg.Block(q + Pow2(l0), l0 + 1))
    ensures Missing(cfg, s', q, l) + 1 == Missing(cfg, s, q, l)
    decreases cfg.k - l
  {
    hide Replied, Gathered, Missing;
    Pow2Grows(l, l0);
    Pow2Grows(l, l + 1);
    GatheredStep(cfg, s, q, l);
    GatheredStep(cfg, s', q, l);
    if l == l0 {
      GatheredFrame(cfg, s, s', q, l + 1);
      Regroup(multiset(cfg.Block(q + Pow2(l), l + 1)), multiset{}, Gathered(cfg, s, q, l + 1));
    } else {
      GatheredAdds(cfg, s, s', q, l + 1, l0);
      Regroup(OwnReply(cfg, s, q, l), Gathered(cfg, s, q, l + 1), multiset(cfg.Block(q + Pow2(l0), l0 + 1)));
    }
  }

  // What the reply of level l adds.
  ghost function OwnReply(cfg: Config, s: State, q: nat, l: nat): multiset<int>
    requires cfg.Valid() && l < cfg.k && q < Pow2(l)
  {
    if Replied(s, q, l) then multiset(cfg.Block(q + Pow2(l), l + 1)) else multiset{}
  }

  lemma GatheredStep(cfg: Config, s: State, q: nat, l: nat)
    requires cfg.Valid() && l < cfg.k && q < Pow2(l)
    ensures q < Pow2(l + 1)
    ensures Gathered(cfg, s, q, l) == OwnReply(cfg, s, q, l) + Gathered(cfg, s, q, l + 1)
    ensures Missing(cfg, s, q, l) == (if Replied(s, q, l) then 0 else 1) + Missing(cfg, s, q, l + 1)
  {
    hide Replied;
  }

  lemma Regroup(a: multiset<int>, b: multiset<int>, c: multiset<int>)
    ensures a + (b + c) == (a + b) + c
    ensures a + c == (multiset{} + c) + a
  {
  }

  lemma {:induction false} GatheredNone(cfg: Config, s: State, q: nat, l: nat)
    requires cfg.Valid() && l <= cfg.k && q < Pow2(l)
    requires forall m :: l <= m < cfg.k ==> !Replied(s, q, m)
    ensures q < Pow2(cfg.k) && Gathered(cfg, s, q, l) == multiset(cfg.Block(q, cfg.k))
    ensures Missing(cfg, s, q, l) == cfg.k - l
    decreases cfg.k - l
  {
    hide Replied;
    if l < cfg.k {
      Pow2Grows(l, l + 1);
      GatheredNone(cfg, s, q, l + 1);
    }
  }

  // Once no reply is missing, everything of the original block has come back; and only then:
  // the sizes tell the same as the count.
  lemma {:induction false} GatheredAll(cfg: Config, s: State, q: nat, l: nat)
    requires cfg.Valid() && l <= cfg.k && q < Pow2(l)
    ensures Missing(cfg, s, q, l) == 0 ==> Gathered(cfg, s, q, l) == multiset(cfg.Block(q, l))
    ensures Missing(cfg, s, q, l) == 0 <==> |Gathered(cfg, s, q, l)| == cfg.Share(l)
    ensures |Gathered(cfg, s, q, l)| <= cfg.Share(l)
    decreases cfg.k - l
  {
    hide *;
    if l < cfg.k {
      GatheredStep(cfg, s, q, l);
      GatheredAll(cfg, s, q, l + 1);
      BlockSplits(cfg, q, l);
      OwnReplySize(cfg, s, q, l);
      SplitMultiset(cfg.Block(q, l + 1), cfg.Block(q + Pow2(l), l + 1));
      Regroup2(OwnReply(cfg, s, q, l), Gathered(cfg, s, q, l + 1));
    } else {
      GatheredLeaf(cfg, s, q);
    }
  }

  lemma GatheredLeaf(cfg: Config, s: State, q: nat)
    requires cfg.Valid() && q < Pow2(cfg.k)
    ensures Gathered(cfg, s, q, cfg.k) == multiset(cfg.Block(q, cfg.k)) && Missing(cfg, s, q, cfg.k) == 0
    ensures |Gathered(cfg, s, q, cfg.k)| == cfg.Share(cfg.k)
  {
    hide Config.Block;
  }

  lemma SplitMultiset(a: seq<int>, b: seq<int>)
    ensures multiset(a + b) == multiset(a) + multiset(b)
  {
  }

  lemma Regroup2(a: multiset<int>, b: multiset<int>)
    ensures |a + b| == |a| + |b| && a + b == b + a
  {
  }

  lemma OwnReplySize(cfg: Config, s: State, q: nat, l: nat)
    requires cfg.Valid() && l < cfg.k && q < Pow2(l)
    ensures q + Pow2(l) < Pow2(l + 1) && cfg.Share(l + 1) > 0
    ensures if Replied(s, q, l) then OwnReply(cfg, s, q, l) == multiset(cfg.Block(q + Pow2(l), l + 1)) && |OwnReply(cfg, s, q, l)| == cfg.Share(l + 1)
            else OwnReply(cfg, s, q, l) == multiset{}
  {
    hide Replied;
    BlockSplits(cfg, q, l);
    ShareIsPositive(cfg, l + 1);
  }

  lemma {:induction false} AllReplied(cfg: Config, s: State, q: nat, l: nat)
    requires l <= cfg.k
    ensures Missing(cfg, s, q, l) == 0 <==> forall m :: l <= m < cfg.k ==> Replied(s, q, m)
    decreases cfg.k - l
  {
    hide Replied;
    if l < cfg.k {
      AllReplied(cfg, s, q, l + 1);
    }
  }

  // A rank other than r sees no reply come or go when r takes a step.
  lemma RepliesElsewhere(cfg: Config, s: State, r: nat, act: Act, q: nat, l: nat)
    requires Enabled(cfg, s, r, act) && q != r
    requires act.Finish? && q + Pow2(l) == r ==> s.procs[r].source == q
    ensures Replied(Apply(cfg, s, r, act), q, l) == Replied(s, q, l)
  {
    if act.Finish? && q + Pow2(l) == r {
      assert Chan(Apply(cfg, s, r, act), r, q) != [];
    }
  }

  lemma NodeFrame(cfg: Config, s: State, r: nat, act: Act, q: nat)
    requires Inv(cfg, s) && Enabled(cfg, s, r, act) && q != r && q < cfg.Ranks()
    ensures NodeInv(cfg, Apply(cfg, s, r, act), q)
  {
    hide Apply, EdgeInv;
    var s', from := Apply(cfg, s, r, act), Level(q, cfg.k);
    StepTouches(cfg, s, r, act);
    assert NodeInv(cfg, s, q);
    forall m | from <= m < cfg.k ensures Replied(s', q, m) == Replied(s, q, m) {
      Pow2Grows(from, m);
      if act.Finish? && q + Pow2(m) == r {
        SourceIsParent(cfg, s, q, m);
      }
      RepliesElsewhere(cfg, s, r, act, q, m);
    }
    GatheredFrame(cfg, s, s', q, from);
  }

  // A rank that has its task has it from its parent.
  lemma SourceIsParent(cfg: Config, s: State, p: nat, l: nat)
    requires Inv(cfg, s) && l < cfg.k && p < Pow2(l)
    ensures p + Pow2(l) < cfg.Ranks()
    ensures !s.procs[p + Pow2(l)].pc.AwaitTask? ==> s.procs[p + Pow2(l)].source == p
  {
    ChildOf(p, l, cfg.k);
    assert EdgeInv(cfg, s, p, l);
  }

  // What is on its way down to r.
  lemma MessageFromParent(cfg: Config, s: State, src: nat, l: nat)
    requires Inv(cfg, s) && l < cfg.k && src < Pow2(l) && Chan(s, src, src + Pow2(l)) != []
    ensures var r := src + Pow2(l);
      r < cfg.Ranks() && r < Pow2(l + 1) && Level(r, cfg.k) == l + 1 && !Busy(s.procs[r].pc)
      && Chan(s, src, r)[0] == (if s.procs[r].pc.AwaitTask? then cfg.Block(r, l + 1) else [l + 1])
  {
    hide NodeInv;
    ChildOf(src, l, cfg.k);
    assert EdgeInv(cfg, s, src, l);
  }

  // What is on its way up to r.
  lemma MessageFromChild(cfg: Config, s: State, r: nat, l: nat)
    requires Inv(cfg, s) && l < cfg.k && r < Pow2(l) && Chan(s, r + Pow2(l), r) != []
    ensures var src := r + Pow2(l);
      src < cfg.Ranks() && r < cfg.Ranks() && src < Pow2(l + 1) && Level(r, cfg.k) <= l
      && Chan(s, src, r) == [Sort(cfg.Block(src, l + 1))]
      && s.procs[src].pc.Done? && Busy(s.procs[r].pc) && s.procs[r].level > l
  {
    hide NodeInv;
    ChildOf(r, l, cfg.k);
    LevelBelow(r, l, cfg.k);
    assert EdgeInv(cfg, s, r, l);
  }

  // Where a message in a channel into r comes from, and what it is.
  lemma MessageInto(cfg: Config, s: State, src: nat, r: nat) returns (l: nat)
    requires Inv(cfg, s) && r < cfg.Ranks() && Chan(s, src, r) != []
    ensures l < cfg.k
    ensures if src < r then
              src < Pow2(l) && r == src + Pow2(l) && Level(r, cfg.k) == l + 1
              && !Busy(s.procs[r].pc)
              && Chan(s, src, r)[0] == (if s.procs[r].pc.AwaitTask? then cfg.Block(r, l + 1) else [l + 1])
            else
              r < Pow2(l) && src == r + Pow2(l) && src < cfg.Ranks() && Level(r, cfg.k) <= l
              && Chan(s, src, r) == [Sort(cfg.Block(src, l + 1))]
              && s.procs[src].pc.Done? && Busy(s.procs[r].pc) && s.procs[r].level > l
  {
    assert TreeEdge(cfg, src, r);
    hide NodeInv, EdgeInv, Sort, Busy;
    l :| IsChild(cfg, src, l, r) || IsChild(cfg, r, l, src);
    if IsChild(cfg, src, l, r) {
      MessageFromParent(cfg, s, src, l);
    } else {
      MessageFromChild(cfg, s, r, l);
    }
  }

  // ---------- the edge above the rank that steps ----------

  lemma EdgeAbove(cfg: Config, s: State, act: Act, p: nat, l: nat)
    requires Inv(cfg, s) && l < cfg.k && p < Pow2(l) && Enabled(cfg, s, p + Pow2(l), act)
    ensures EdgeInv(cfg, Apply(cfg, s, p + Pow2(l), act), p, l)
  {
    hide EdgeInv, NodeInv, Apply, Sort, Merged;
    var r := p + Pow2(l);
    ChildOf(p, l, cfg.k);
    assert EdgeInv(cfg, s, p, l);
    match act
    case TakeTask(src) =>
      var m := MessageInto(cfg, s, src, r);
      EdgeAboveTakes(cfg, s, act, p, l);
    case TakeLevel => EdgeAboveTakes(cfg, s, act, p, l);
    case SendHalf => EdgeAboveIdle(cfg, s, act, p, l);
    case SendLevel =>
      AnnouncedChild(cfg, s, r);
      EdgeAboveIdle(cfg, s, act, p, l);
    case SortOwn => EdgeAboveIdle(cfg, s, act, p, l);
    case TakeReply(src) =>
      var m := MessageInto(cfg, s, src, r);
      EdgeAboveIdle(cfg, s, act, p, l);
    case Finish =>
      FinishedBlock(cfg, s, r);
      EdgeAboveFinish(cfg, s, p, l);
  }

  lemma AnnouncedChild(cfg: Config, s: State, r: nat)
    requires Inv(cfg, s) && r < cfg.Ranks() && s.procs[r].pc.Announce?
    ensures s.procs[r].level > 0 && Level(r, cfg.k) <= s.procs[r].level - 1 < cfg.k
    ensures r < Pow2(s.procs[r].level - 1) && s.procs[r].pc.child == r + Pow2(s.procs[r].level - 1)
  {
    assert NodeInv(cfg, s, r);
    LevelBelow(r, s.procs[r].level - 1, cfg.k);
  }

  // The two receives from the parent.
  lemma EdgeAboveTakes(cfg: Config, s: State, act: Act, p: nat, l: nat)
    requires cfg.Valid() && |s.procs| == cfg.Ranks() && l < cfg.k && p < Pow2(l) && EdgeInv(cfg, s, p, l)
    requires Enabled(cfg, s, p + Pow2(l), act) && (act == TakeTask(p) || act == TakeLevel)
    ensures EdgeInv(cfg, Apply(cfg, s, p + Pow2(l), act), p, l)
  {
    ChildOf(p, l, cfg.k);
    var r := p + Pow2(l);
    var s' := Apply(cfg, s, r, act);
    assert Chan(s', p, r) == Chan(s, p, r)[1..] && Chan(s', r, p) == Chan(s, r, p);
  }

  // The steps that do not use the edge to the parent.
  lemma EdgeAboveIdle(cfg: Config, s: State, act: Act, p: nat, l: nat)
    requires cfg.Valid() && |s.procs| == cfg.Ranks() && l < cfg.k && p < Pow2(l) && EdgeInv(cfg, s, p, l)
    requires Enabled(cfg, s, p + Pow2(l), act)
    requires match act
      case TakeReply(src) => src > p + Pow2(l)
      case SendLevel => s.procs[p + Pow2(l)].pc.child > p
      case SendHalf => true
      case SortOwn => true
      case _ => false
    ensures EdgeInv(cfg, Apply(cfg, s, p + Pow2(l), act), p, l)
  {
    hide Merged, Sort, EdgeInv;
    ChildOf(p, l, cfg.k);
    var r := p + Pow2(l);
    var s' := Apply(cfg, s, r, act);
    assert Chan(s', p, r) == Chan(s, p, r) && Chan(s', r, p) == Chan(s, r, p);
    EdgeAboveKept(cfg, s, s', p, l);
  }

  lemma EdgeAboveKept(cfg: Config, s: State, s': State, p: nat, l: nat)
    requires cfg.Valid() && |s.procs| == cfg.Ranks() == |s'.procs| && l < cfg.k && p < Pow2(l) && EdgeInv(cfg, s, p, l)
    requires p + Pow2(l) < cfg.Ranks() && s'.procs[p] == s.procs[p]
    requires Chan(s', p, p + Pow2(l)) == Chan(s, p, p + Pow2(l)) && Chan(s', p + Pow2(l), p) == Chan(s, p + Pow2(l), p)
    requires Busy(s.procs[p + Pow2(l)].pc) && Busy(s'.procs[p + Pow2(l)].pc)
    requires !s.procs[p + Pow2(l)].pc.Done? && !s'.procs[p + Pow2(l)].pc.Done?
    requires s'.procs[p + Pow2(l)].source == s.procs[p + Pow2(l)].source
    ensures EdgeInv(cfg, s', p, l)
  {
    hide Chan;
    ChildOf(p, l, cfg.k);
  }

  lemma EdgeAboveFinish(cfg: Config, s: State, p: nat, l: nat)
    requires cfg.Valid() && |s.procs| == cfg.Ranks() && l < cfg.k && p < Pow2(l) && EdgeInv(cfg, s, p, l)
    requires Enabled(cfg, s, p + Pow2(l), Finish)
    requires p + Pow2(l) < Pow2(l + 1) && s.procs[p + Pow2(l)].buf == Sort(cfg.Block(p + Pow2(l), l + 1))
    ensures EdgeInv(cfg, Apply(cfg, s, p + Pow2(l), Finish), p, l)
  {
    hide Sort, MoreReplies;
    ChildOf(p, l, cfg.k);
    var r := p + Pow2(l);
    var s' := Apply(cfg, s, r, Finish);
    hide Pow2, Config.Block;
    assert Chan(s, r, p) == [];
    assert Chan(s', p, r) == Chan(s, p, r) && Chan(s', r, p) == [s.procs[r].buf];
  }

  // A rank that leaves its fan-in loop holds its sorted block.
  lemma FinishedBlock(cfg: Config, s: State, r: nat)
    requires Inv(cfg, s) && r < cfg.Ranks() && Enabled(cfg, s, r, Finish)
    ensures s.procs[r].buf == Sort(cfg.Block(r, Level(r, cfg.k)))
    ensures Missing(cfg, s, r, Level(r, cfg.k)) == 0
  {
    var from := Level(r, cfg.k);
    assert NodeInv(cfg, s, r);
    GatheredAll(cfg, s, r, from);
    var p := s.procs[r];
    assert |p.buf| == |multiset(p.buf)|;
    SortUnique(cfg.Block(r, from), p.buf);
  }

  // ---------- the edges below the rank that steps ----------

  lemma Pow2Injective(l: nat, m: nat)
    requires Pow2(l) == Pow2(m)
    ensures l == m
  {
    if l < m {
      Pow2Grows(l, m);
    } else if m < l {
      Pow2Grows(m, l);
    }
  }

  // Nothing that the edge depends on changes.
  lemma EdgeBelowKept(cfg: Config, s: State, s': State, r: nat, l: nat)
    requires cfg.Valid() && |s.procs| == cfg.Ranks() == |s'.procs| && l < cfg.k && r < Pow2(l) && EdgeInv(cfg, s, r, l)
    requires r + Pow2(l) < cfg.Ranks() && s'.procs[r + Pow2(l)] == s.procs[r + Pow2(l)]
    requires Chan(s', r, r + Pow2(l)) == Chan(s, r, r + Pow2(l)) && Chan(s', r + Pow2(l), r) == Chan(s, r + Pow2(l), r)
    requires SentTask(s'.procs[r], l) == SentTask(s.procs[r], l)
    requires SentLevel(s'.procs[r], l, r + Pow2(l)) == SentLevel(s.procs[r], l, r + Pow2(l))
    requires !s'.procs[r].pc.Done? && !s.procs[r].pc.Done? && (s.procs[r].pc.Collect? ==> s'.procs[r].pc.Collect?)
    ensures EdgeInv(cfg, s', r, l)
  {
    hide Chan, SentTask, SentLevel;
    ChildOf(r, l, cfg.k);
  }

  lemma EdgeBelow(cfg: Config, s: State, act: Act, r: nat, l: nat)
    requires Inv(cfg, s) && l < cfg.k && r < Pow2(l) && r < |s.procs| && Enabled(cfg, s, r, act)
    ensures EdgeInv(cfg, Apply(cfg, s, r, act), r, l)
  {
    hide EdgeInv, NodeInv, Apply, Sort, Merged;
    ChildOf(r, l, cfg.k);
    LevelBelow(r, l, cfg.k);
    assert EdgeInv(cfg, s, r, l);
    match act
    case TakeTask(src) =>
      var m := MessageInto(cfg, s, src, r);
      EdgeBelowTakes(cfg, s, act, src, r, l);
    case TakeLevel =>
      var m := MessageInto(cfg, s, s.procs[r].source, r);
      EdgeBelowTakes(cfg, s, act, s.procs[r].source, r, l);
    case SendHalf =>
      SplitBlock(cfg, s, r);
      EdgeBelowSends(cfg, s, r, l);
    case SendLevel =>
      AnnouncedChild(cfg, s, r);
      EdgeBelowAnnounces(cfg, s, r, l);
    case SortOwn =>
      EdgeBelowSorts(cfg, s, r, l);
    case TakeReply(src) =>
      var m := MessageInto(cfg, s, src, r);
      EdgeBelowReply(cfg, s, src, r, l);
    case Finish =>
      FinishedBlock(cfg, s, r);
      AllReplied(cfg, s, r, Level(r, cfg.k));
      FinishSource(cfg, s, r);
      EdgeBelowFinish(cfg, s, r, l);
  }

  // The two receives from the parent.
  lemma EdgeBelowTakes(cfg: Config, s: State, act: Act, src: nat, r: nat, l: nat)
    requires cfg.Valid() && |s.procs| == cfg.Ranks() && l < cfg.k && r < Pow2(l) && EdgeInv(cfg, s, r, l)
    requires Enabled(cfg, s, r, act) && src < r
    requires act == TakeTask(src) || (act == TakeLevel && s.procs[r].source == src && Chan(s, src, r)[0][0] <= l)
    ensures EdgeInv(cfg, Apply(cfg, s, r, act), r, l)
  {
    hide EdgeInv;
    ChildOf(r, l, cfg.k);
    EdgeBelowKept(cfg, s, Apply(cfg, s, r, act), r, l);
  }

  // A rank that still has to split holds a block of even size.
  lemma SplitBlock(cfg: Config, s: State, r: nat)
    requires Inv(cfg, s) && r < cfg.Ranks() && Enabled(cfg, s, r, SendHalf)
    ensures var p := s.procs[r];
      p.level < cfg.k && r < Pow2(p.level) && |p.buf| == 2 * cfg.Share(p.level + 1)
      && r < Pow2(p.level + 1) && r + Pow2(p.level) < Pow2(p.level + 1)
      && p.buf[..cfg.Share(p.level + 1)] == cfg.Block(r, p.level + 1)
      && p.buf[cfg.Share(p.level + 1)..] == cfg.Block(r + Pow2(p.level), p.level + 1)
  {
    var p := s.procs[r];
    assert NodeInv(cfg, s, r);
    LevelBelow(r, p.level, cfg.k);
    if p.level < cfg.k {
      BlockSplits(cfg, r, p.level);
    }
  }

  lemma EdgeBelowSends(cfg: Config, s: State, r: nat, l: nat)
    requires cfg.Valid() && |s.procs| == cfg.Ranks() && l < cfg.k && r < Pow2(l) && EdgeInv(cfg, s, r, l)
    requires Enabled(cfg, s, r, SendHalf)
    requires r + Pow2(l) < Pow2(l + 1)
    requires s.procs[r].level == l ==>
      |s.procs[r].buf| == 2 * cfg.Share(l + 1) && s.procs[r].buf[cfg.Share(l + 1)..] == cfg.Block(r + Pow2(l), l + 1)
    ensures EdgeInv(cfg, Apply(cfg, s, r, SendHalf), r, l)
  {
    hide EdgeInv;
    ChildOf(r, l, cfg.k);
    var p, c, s' := s.procs[r], r + Pow2(l), Apply(cfg, s, r, SendHalf);
    if p.level == l {
      var half := |p.buf| / 2;
      assert p.buf[half..half + half] == cfg.Block(c, l + 1);
      assert Chan(s', r, c) == Chan(s, r, c) + [cfg.Block(c, l + 1)] && Chan(s', c, r) == Chan(s, c, r);
      TaskIsOnItsWay(cfg, s, s', r, l);
    } else {
      if Pow2(p.level) == Pow2(l) { Pow2Injective(p.level, l); }
      EdgeBelowKept(cfg, s, s', r, l);
    }
  }

  lemma TaskIsOnItsWay(cfg: Config, s: State, s': State, r: nat, l: nat)
    requires cfg.Valid() && |s.procs| == cfg.Ranks() == |s'.procs| && l < cfg.k && r < Pow2(l) && EdgeInv(cfg, s, r, l)
    requires r + Pow2(l) < cfg.Ranks() && s'.procs[r + Pow2(l)] == s.procs[r + Pow2(l)]
    requires s.procs[r].pc.Split? && s.procs[r].level == l
    requires s'.procs[r].pc == Announce(r + Pow2(l)) && s'.procs[r].level == l + 1
    requires r + Pow2(l) < Pow2(l + 1)
    requires Chan(s', r, r + Pow2(l)) == Chan(s, r, r + Pow2(l)) + [cfg.Block(r + Pow2(l), l + 1)]
    requires Chan(s', r + Pow2(l), r) == Chan(s, r + Pow2(l), r)
    ensures EdgeInv(cfg, s', r, l)
  {
    hide Chan;
    ChildOf(r, l, cfg.k);
  }

  lemma EdgeBelowAnnounces(cfg: Config, s: State, r: nat, l: nat)
    requires cfg.Valid() && |s.procs| == cfg.Ranks() && l < cfg.k && r < Pow2(l) && EdgeInv(cfg, s, r, l)
    requires Enabled(cfg, s, r, SendLevel)
    requires s.procs[r].level > 0 && s.procs[r].pc.child == r + Pow2(s.procs[r].level - 1)
    ensures EdgeInv(cfg, Apply(cfg, s, r, SendLevel), r, l)
  {
    hide EdgeInv;
    ChildOf(r, l, cfg.k);
    var p, c, s' := s.procs[r], r + Pow2(l), Apply(cfg, s, r, SendLevel);
    if p.level == l + 1 {
      assert Chan(s', r, c) == Chan(s, r, c) + [[l + 1]] && Chan(s', c, r) == Chan(s, c, r);
      LevelIsOnItsWay(cfg, s, s', r, l);
    } else {
      if Pow2(p.level - 1) == Pow2(l) { Pow2Injective(p.level - 1, l); }
      EdgeBelowKept(cfg, s, s', r, l);
    }
  }

  lemma LevelIsOnItsWay(cfg: Config, s: State, s': State, r: nat, l: nat)
    requires cfg.Valid() && |s.procs| == cfg.Ranks() == |s'.procs| && l < cfg.k && r < Pow2(l) && EdgeInv(cfg, s, r, l)
    requires r + Pow2(l) < cfg.Ranks() && s'.procs[r + Pow2(l)] == s.procs[r + Pow2(l)]
    requires s.procs[r].pc == Announce(r + Pow2(l)) && s.procs[r].level == l + 1
    requires s'.procs[r] == s.procs[r].(pc := Split)
    requires Chan(s', r, r + Pow2(l)) == Chan(s, r, r + Pow2(l)) + [[l + 1]]
    requires Chan(s', r + Pow2(l), r) == Chan(s, r + Pow2(l), r)
    ensures EdgeInv(cfg, s', r, l)
  {
    hide Chan;
    ChildOf(r, l, cfg.k);
  }

  lemma EdgeBelowSorts(cfg: Config, s: State, r: nat, l: nat)
    requires cfg.Valid() && |s.procs| == cfg.Ranks() && l < cfg.k && r < Pow2(l) && EdgeInv(cfg, s, r, l)
    requires Enabled(cfg, s, r, SortOwn)
    ensures EdgeInv(cfg, Apply(cfg, s, r, SortOwn), r, l)
  {
    hide EdgeInv, Sort;
    ChildOf(r, l, cfg.k);
    EdgeBelowKept(cfg, s, Apply(cfg, s, r, SortOwn), r, l);
  }

  lemma EdgeBelowReply(cfg: Config, s: State, src: nat, r: nat, l: nat)
    requires cfg.Valid() && |s.procs| == cfg.Ranks() && l < cfg.k && r < Pow2(l) && EdgeInv(cfg, s, r, l)
    requires Enabled(cfg, s, r, TakeReply(src)) && src > r
    ensures EdgeInv(cfg, Apply(cfg, s, r, TakeReply(src)), r, l)
  {
    hide Merged, Sort;
    ChildOf(r, l, cfg.k);
    var c, s' := r + Pow2(l), Apply(cfg, s, r, TakeReply(src));
    if src == c {
      assert Chan(s', c, r) == [] && Chan(s', r, c) == Chan(s, r, c);
    } else {
      EdgeBelowKept(cfg, s, s', r, l);
    }
  }

  // A rank answers to a smaller one.
  lemma FinishSource(cfg: Config, s: State, r: nat)
    requires Inv(cfg, s) && r < cfg.Ranks() && Busy(s.procs[r].pc)
    ensures r > 0 ==> s.procs[r].source == Parent(r, cfg.k) < r
  {
    if r > 0 {
      SourceIsParent(cfg, s, Parent(r, cfg.k), Level(r, cfg.k) - 1);
    }
  }

  lemma EdgeBelowFinish(cfg: Config, s: State, r: nat, l: nat)
    requires cfg.Valid() && |s.procs| == cfg.Ranks() && l < cfg.k && r < Pow2(l) && EdgeInv(cfg, s, r, l)
    requires Enabled(cfg, s, r, Finish) && Replied(s, r, l) && (r > 0 ==> s.procs[r].source < r)
    ensures EdgeInv(cfg, Apply(cfg, s, r, Finish), r, l)
  {
    hide Sort, EdgeInv;
    ChildOf(r, l, cfg.k);
    var c, s' := r + Pow2(l), Apply(cfg, s, r, Finish);
    assert Chan(s', c, r) == [] && Chan(s', r, c) == Chan(s, r, c);
    LastReplyTaken(cfg, s, s', r, l);
  }

  lemma LastReplyTaken(cfg: Config, s: State, s': State, r: nat, l: nat)
    requires cfg.Valid() && |s.procs| == cfg.Ranks() == |s'.procs| && l < cfg.k && r < Pow2(l) && EdgeInv(cfg, s, r, l)
    requires r + Pow2(l) < cfg.Ranks() && s'.procs[r + Pow2(l)] == s.procs[r + Pow2(l)]
    requires s.procs[r].pc.Collect? && s'.procs[r] == s.procs[r].(pc := Done) && s.procs[r + Pow2(l)].pc.Done?
    requires Chan(s', r, r + Pow2(l)) == Chan(s, r, r + Pow2(l)) && Chan(s', r + Pow2(l), r) == []
    ensures EdgeInv(cfg, s', r, l)
  {
    hide Chan;
    ChildOf(r, l, cfg.k);
  }

  // ---------- the rank that steps ----------

  lemma NodeStep(cfg: Config, s: State, r: nat, act: Act)
    requires Inv(cfg, s) && Enabled(cfg, s, r, act) && r < cfg.Ranks()
    ensures NodeInv(cfg, Apply(cfg, s, r, act), r)
  {
    hide EdgeInv, Merged, Sort, NodeInv, Apply;
    match act
    case TakeTask(src) => NodeTakes(cfg, s, r, act);
    case TakeLevel => NodeTakes(cfg, s, r, act);
    case SendHalf => NodeSplits(cfg, s, r);
    case SendLevel => NodeAnnounces(cfg, s, r);
    case SortOwn => NodeSorts(cfg, s, r);
    case TakeReply(src) => NodeReply(cfg, s, src, r);
    case Finish => NodeFinishes(cfg, s, r);
  }

  lemma NodeTakes(cfg: Config, s: State, r: nat, act: Act)
    requires Inv(cfg, s) && Enabled(cfg, s, r, act) && r < cfg.Ranks() && (act.TakeTask? || act.TakeLevel?)
    ensures NodeInv(cfg, Apply(cfg, s, r, act), r)
  {
    hide EdgeInv, Sort;
    assert NodeInv(cfg, s, r);
    var m := MessageInto(cfg, s, if act.TakeTask? then act.src else s.procs[r].source, r);
  }

  lemma NodeSplits(cfg: Config, s: State, r: nat)
    requires Inv(cfg, s) && Enabled(cfg, s, r, SendHalf) && r < cfg.Ranks()
    ensures NodeInv(cfg, Apply(cfg, s, r, SendHalf), r)
  {
    hide EdgeInv;
    assert NodeInv(cfg, s, r);
    SplitBlock(cfg, s, r);
    LevelBelow(r, s.procs[r].level + 1, cfg.k);
  }

  lemma NodeAnnounces(cfg: Config, s: State, r: nat)
    requires Inv(cfg, s) && Enabled(cfg, s, r, SendLevel) && r < cfg.Ranks()
    ensures NodeInv(cfg, Apply(cfg, s, r, SendLevel), r)
  {
    hide EdgeInv;
    assert NodeInv(cfg, s, r);
  }

  lemma NodeFinishes(cfg: Config, s: State, r: nat)
    requires Inv(cfg, s) && Enabled(cfg, s, r, Finish) && r < cfg.Ranks()
    ensures NodeInv(cfg, Apply(cfg, s, r, Finish), r)
  {
    hide EdgeInv, Sort;
    assert NodeInv(cfg, s, r);
    FinishedBlock(cfg, s, r);
  }

  // The leaf part is sorted before any reply is taken.
  lemma NodeSorts(cfg: Config, s: State, r: nat)
    requires Inv(cfg, s) && r < cfg.Ranks() && Enabled(cfg, s, r, SortOwn)
    ensures NodeInv(cfg, Apply(cfg, s, r, SortOwn), r)
  {
    hide EdgeInv, Sort;
    var p, from, s' := s.procs[r], Level(r, cfg.k), Apply(cfg, s, r, SortOwn);
    assert NodeInv(cfg, s, r);
    ShareIsPositive(cfg, p.level);
    forall m | from <= m < cfg.k ensures !Replied(s', r, m) {
      NotYetReplied(cfg, s, r, m);
    }
    GatheredNone(cfg, s', r, from);
    SortIsSortedPermutation(p.buf);
  }

  lemma NotYetReplied(cfg: Config, s: State, r: nat, m: nat)
    requires Inv(cfg, s) && r < cfg.Ranks() && !s.procs[r].pc.Collect? && !s.procs[r].pc.Done?
    requires Level(r, cfg.k) <= m < cfg.k
    ensures !Replied(s, r, m)
    ensures r + Pow2(m) < cfg.Ranks()
  {
    LevelBelow(r, m, cfg.k);
    ChildOf(r, m, cfg.k);
    assert EdgeInv(cfg, s, r, m);
  }

  // A reply is merged, whichever child it comes from.
  lemma NodeReply(cfg: Config, s: State, src: nat, r: nat)
    requires Inv(cfg, s) && r < cfg.Ranks() && Enabled(cfg, s, r, TakeReply(src))
    ensures NodeInv(cfg, Apply(cfg, s, r, TakeReply(src)), r)
  {
    hide EdgeInv, Sort, Merged, Gathered, Missing;
    var p, from, s' := s.procs[r], Level(r, cfg.k), Apply(cfg, s, r, TakeReply(src));
    assert NodeInv(cfg, s, r);
    var l := MessageInto(cfg, s, src, r);
    var reply := cfg.Block(src, l + 1);
    forall m | from <= m < cfg.k && m != l ensures Replied(s', r, m) == Replied(s, r, m) {
      if Pow2(m) == Pow2(l) { Pow2Injective(m, l); }
    }
    assert !Replied(s, r, l) && Replied(s', r, l);
    GatheredAdds(cfg, s, s', r, from, l);
    SortIsSortedPermutation(reply);
    MergedIsSorted(p.buf, Sort(reply));
    MergedKeepsValues(p.buf, Sort(reply));
  }

  // ---------- the invariant ----------

  // Every step keeps the invariant, whichever rank takes it and whichever source it receives from.
  lemma StepKeepsInv(cfg: Config, s: State, r: nat, act: Act)
    requires Inv(cfg, s) && Enabled(cfg, s, r, act)
    ensures Inv(cfg, Apply(cfg, s, r, act))
  {
    hide NodeInv, EdgeInv, Apply, Enabled, TreeEdge;
    var s' := Apply(cfg, s, r, act);
    StepTouches(cfg, s, r, act);
    assert r < cfg.Ranks() by { EnabledRank(cfg, s, r, act); }
    forall q | 0 <= q < cfg.Ranks() ensures NodeInv(cfg, s', q) {
      if q == r { NodeStep(cfg, s, r, act); } else { NodeFrame(cfg, s, r, act, q); }
    }
    forall p, l | 0 <= l < cfg.k && 0 <= p < Pow2(l) ensures EdgeInv(cfg, s', p, l) {
      if p + Pow2(l) == r {
        EdgeAbove(cfg, s, act, p, l);
      } else if p == r {
        EdgeBelow(cfg, s, act, r, l);
      } else {
        EdgeFrame(cfg, s, s', r, p, l);
      }
    }
    forall i, j | Chan(s', i, j) != [] ensures TreeEdge(cfg, i, j) {
      ChannelsStayInTree(cfg, s, r, act, i, j);
    }
  }

  lemma EnabledRank(cfg: Config, s: State, r: nat, act: Act)
    requires Enabled(cfg, s, r, act)
    ensures r < |s.procs|
  {
  }

  lemma ChannelsStayInTree(cfg: Config, s: State, r: nat, act: Act, i: nat, j: nat)
    requires Inv(cfg, s) && Enabled(cfg, s, r, act) && r < cfg.Ranks()
    requires Chan(Apply(cfg, s, r, act), i, j) != []
    ensures TreeEdge(cfg, i, j)
  {
    hide NodeInv, EdgeInv, Sort, Merged;
    if Chan(s, i, j) == [] {
      var p := s.procs[r];
      match act
      case TakeTask(src) => assert false;
      case TakeLevel => assert false;
      case SendHalf =>
        SplitBlock(cfg, s, r);
        assert IsChild(cfg, r, p.level, j);
      case SendLevel =>
        AnnouncedChild(cfg, s, r);
        assert IsChild(cfg, r, p.level - 1, j);
      case SortOwn => assert false;
      case TakeReply(src) => assert false;
      case Finish =>
        FinishSource(cfg, s, r);
        assert IsChild(cfg, j, Level(r, cfg.k) - 1, r);
    }
  }
}
