// Why a wrong reply is never made good (PPD/MPI/T1/master-slave.c): a reply out of order cannot be merged
// into order, and a reply in order that is wrong weighs more than its chunk, which nothing takes back.
module MasterSlaveMass {
  import opened SortSpec
  import opened Merging
  import opened RankSort
  import opened MasterSlave
  import opened MasterSlaveProof

  // ---------- sums ----------

  function Sum(s: seq<int>): int {
    if s == [] then 0 else Sum(s[..|s| - 1]) + s[|s| - 1]
  }

  lemma {:induction false} SumAppend(a: seq<int>, b: seq<int>)
    ensures Sum(a + b) == Sum(a) + Sum(b)
  {
    if b == [] {
      assert a + b == a;
    } else {
      SumAppend(a, b[..|b| - 1]);
      assert (a + b)[..|a + b| - 1] == a + b[..|b| - 1];
    }
  }

  lemma SumOfOne(x: int)
    ensures Sum([x]) == x
  {
    assert [x][..0] == [];
  }

  lemma SumWithout(s: seq<int>, k: nat)
    requires k < |s|
    ensures Sum(s) == Sum(s[..k] + s[k + 1..]) + s[k]
  {
    var pre, post := s[..k], s[k + 1..];
    assert s == pre + ([s[k]] + post);
    SumAppend(pre, [s[k]] + post);
    SumAppend([s[k]], post);
    SumOfOne(s[k]);
    SumAppend(pre, post);
    hide Sum;
  }

  lemma SumInit(s: seq<int>)
    ensures s != [] ==> Sum(s) == Sum(s[..|s| - 1]) + s[|s| - 1]
    ensures Sum([]) == 0
  {}

  lemma {:induction false} SumOfPermutation(a: seq<int>, b: seq<int>)
    requires multiset(a) == multiset(b)
    ensures Sum(a) == Sum(b)
  {
    hide Sum;
    MultisetLength(a, b);
    SumInit(a);
    if a != [] {
      var v, k := TakeLast(a, b);
      SumOfPermutation(a[..|a| - 1], b[..k] + b[k + 1..]);
      SumWithout(b, k);
    }
  }

  lemma SumOfMerged(x: seq<int>, y: seq<int>)
    ensures Sum(Merged(x, y)) == Sum(x) + Sum(y)
  {
    MergedKeepsValues(x, y);
    SumOfPermutation(Merged(x, y), x + y);
    SumAppend(x, y);
  }

  // Cell by cell at least as much is as much only if it is the same.
  lemma {:induction false} SumAbove(a: seq<int>, b: seq<int>)
    requires |a| == |b| && forall i :: 0 <= i < |a| ==> a[i] <= b[i]
    ensures Sum(a) <= Sum(b) && (Sum(a) == Sum(b) ==> a == b)
  {
    if a != [] {
      var n := |a| - 1;
      SumAbove(a[..n], b[..n]);
      assert a == a[..n] + [a[n]] && b == b[..n] + [b[n]];
    }
  }

  // An answer in order weighs at least as much as the chunk, and as much only if it is right.
  lemma AnswerWeighs(v: seq<int>, prior: seq<int>)
    requires |v| == |prior| && Sorted(Ranked(v, prior))
    ensures Sum(v) <= Sum(Ranked(v, prior)) && (Sum(v) == Sum(Ranked(v, prior)) ==> Ranked(v, prior) == Sort(v))
  {
    hide Sort, Ranked, Sum;
    SortIsSortedPermutation(v);
    MultisetLength(v, Sort(v));
    SumOfPermutation(v, Sort(v));
    forall i | 0 <= i < |v| ensures Sort(v)[i] <= Ranked(v, prior)[i] {
      InOrderIsAbove(v, prior, i);
    }
    SumAbove(Sort(v), Ranked(v, prior));
  }

  // What is merged into order was in order.
  lemma {:induction false} MergedFromSorted(x: seq<int>, y: seq<int>)
    requires Sorted(Merged(x, y))
    ensures Sorted(x) && Sorted(y)
  {
    if x != [] && y != [] {
      if x[0] <= y[0] {
        TailInOrder(x[0], Merged(x[1..], y));
        MergedFromSorted(x[1..], y);
        HeadIsLeast(x, x[1..], y);
      } else {
        TailInOrder(y[0], Merged(x, y[1..]));
        MergedFromSorted(x, y[1..]);
        HeadIsLeast(y, x, y[1..]);
      }
    }
  }

  lemma TailInOrder(h: int, t: seq<int>)
    requires Sorted([h] + t)
    ensures Sorted(t) && forall i :: 0 <= i < |t| ==> h <= t[i]
  {
    var s := [h] + t;
    forall i | 0 <= i < |t| ensures h <= t[i] {
      assert s[0] <= s[i + 1];
    }
    forall i, j | 0 <= i < j < |t| ensures t[i] <= t[j] {
      assert s[i + 1] <= s[j + 1];
    }
  }

  lemma HeadIsLeast(s: seq<int>, x: seq<int>, y: seq<int>)
    requires s != [] && (s[1..] == x || s[1..] == y) && Sorted(x) && Sorted(y)
    requires forall i :: 0 <= i < |x| + |y| ==> s[0] <= Merged(x, y)[i]
    ensures Sorted(s)
  {
    var t := s[1..];
    forall i | 0 <= i < |t| ensures s[0] <= t[i] {
      MergedHolds(x, y, t[i]);
    }
    hide Merged;
    PrependLeast(s[0], t);
    assert s == [s[0]] + t;
  }

  lemma PrependLeast(h: int, t: seq<int>)
    requires Sorted(t) && forall i :: 0 <= i < |t| ==> h <= t[i]
    ensures Sorted([h] + t)
  {}

  // ---------- what is out with the slaves ----------

  function SumAll(ms: seq<seq<int>>): int {
    if ms == [] then 0 else SumAll(ms[..|ms| - 1]) + Sum(ms[|ms| - 1])
  }

  lemma SumAllOfOne(m: seq<int>)
    ensures SumAll([m]) == Sum(m) && SumAll([]) == 0
  {
    assert [m][..0] == [];
  }

  function Mass(w: Slave): int {
    SumAll(w.inbox) + SumAll(w.outbox) + (if w.work.Idle? then 0 else Sum(w.work.chunk))
  }

  function TotalMass(ws: seq<Slave>): int {
    if ws == [] then 0 else TotalMass(ws[..|ws| - 1]) + Mass(ws[|ws| - 1])
  }

  lemma {:induction false} MassAfter(ws: seq<Slave>, k: nat, w: Slave)
    requires k < |ws|
    ensures TotalMass(ws[k := w]) + Mass(ws[k]) == TotalMass(ws) + Mass(w)
  {
    hide Mass;
    var n := |ws| - 1;
    if k < n {
      MassAfter(ws[..n], k, w);
      assert ws[k := w][..n] == ws[..n][k := w];
    } else {
      assert ws[k := w][..n] == ws[..n];
    }
  }

  lemma {:induction false} NoMass(ws: seq<Slave>)
    requires forall k :: 0 <= k < |ws| ==> Ready(ws[k])
    ensures TotalMass(ws) == 0
  {
    if ws != [] {
      NoMass(ws[..|ws| - 1]);
    }
  }

  // ---------- the balance ----------

  ghost function SentSum(cfg: Config, n: nat): int
    requires cfg.Valid() && n <= cfg.Tasks()
  {
    OffsetsGrow(cfg, n, cfg.Tasks());
    Sum(cfg.input[..cfg.Offset(n)])
  }

  lemma SentSumGrows(cfg: Config, n: nat)
    requires cfg.Valid() && n < cfg.Tasks()
    ensures SentSum(cfg, n + 1) == SentSum(cfg, n) + Sum(cfg.Chunk(n))
  {
    OffsetsGrow(cfg, n + 1, cfg.Tasks());
    assert cfg.input[..cfg.Offset(n + 1)] == cfg.input[..cfg.Offset(n)] + cfg.Chunk(n);
    SumAppend(cfg.input[..cfg.Offset(n)], cfg.Chunk(n));
  }

  lemma AllSent(cfg: Config)
    requires cfg.Valid()
    ensures SentSum(cfg, cfg.Tasks()) == Sum(cfg.input) && SentSum(cfg, 0) == 0
  {
    assert cfg.input[..|cfg.input|] == cfg.input;
  }

  // What there is, less what was sent.
  ghost function Balance(cfg: Config, s: State): int
    requires cfg.Valid() && s.sent <= cfg.Tasks()
  {
    Sum(s.sorted) + TotalMass(s.slaves) - SentSum(cfg, s.sent)
  }

  // Something is out of order.
  ghost predicate Untidy(s: State) {
    !Sorted(s.sorted) || exists k :: 0 <= k < |s.slaves| && !RepliesSorted(s.slaves[k])
  }

  // Nothing puts it in order again, and the balance does not fall.
  ghost predicate NoBetter(cfg: Config, s: State, s': State)
    requires cfg.Valid() && s.sent <= cfg.Tasks() && s'.sent <= cfg.Tasks()
  {
    (Untidy(s) ==> Untidy(s')) && (Untidy(s') || Balance(cfg, s') >= Balance(cfg, s))
  }

  lemma SendWeighs(cfg: Config, s: State, k: nat, phase: Phase)
    requires RunningInv(cfg, s) && k < |s.slaves| && Ready(s.slaves[k]) && s.sent < cfg.Tasks()
    ensures NoBetter(cfg, s, SendChunk(cfg, s, k, phase))
  {
    hide TotalMass, TotalLoad, TotalStoppers, StopChunks, SentSum, Sum, Sorted;
    var w, m := s.slaves[k], cfg.Chunk(s.sent);
    var s' := SendChunk(cfg, s, k, phase);
    assert w.inbox + [m] == [m];
    SumAllOfOne(m);
    MassAfter(s.slaves, k, s'.slaves[k]);
    SentSumGrows(cfg, s.sent);
    assert forall i :: 0 <= i < |s.slaves| ==> s'.slaves[i].outbox == s.slaves[i].outbox;
    SameReplies(s, s');
  }

  lemma SameReplies(s: State, s': State)
    requires |s.slaves| == |s'.slaves| && s.sorted == s'.sorted
    requires forall i :: 0 <= i < |s.slaves| ==> s'.slaves[i].outbox == s.slaves[i].outbox
    ensures Untidy(s) <==> Untidy(s')
  {
    assert forall i :: 0 <= i < |s.slaves| ==> RepliesSorted(s.slaves[i]) == RepliesSorted(s'.slaves[i]);
  }

  lemma TakenWeighs(cfg: Config, s: State, k: nat)
    requires RunningInv(cfg, s) && Enabled(cfg, s, SlaveReceives(k))
    ensures NoBetter(cfg, s, Apply(cfg, s, SlaveReceives(k)))
  {
    hide TotalMass, TotalLoad, TotalStoppers, StopChunks, SentSum, Sum, Sorted;
    var w, s' := s.slaves[k], Apply(cfg, s, SlaveReceives(k));
    assert SlaveInv(cfg, w);
    assert w.inbox == [w.inbox[0]] && w.inbox[1..] == [];
    SumAllOfOne(w.inbox[0]);
    MassAfter(s.slaves, k, s'.slaves[k]);
    SameReplies(s, s');
  }

  // The answer of slave k, and how it compares with its chunk.
  lemma AnswerAlone(cfg: Config, s: State, k: nat)
    requires RunningInv(cfg, s) && Enabled(cfg, s, SlaveReplies(k))
    ensures var w, w' := s.slaves[k], Apply(cfg, s, SlaveReplies(k)).slaves[k];
      && |w.work.chunk| == |w.out| && w'.outbox == [Ranked(w.work.chunk, w.out)]
      && Mass(w) == Sum(w.work.chunk) && Mass(w') == Sum(Ranked(w.work.chunk, w.out))
  {
    hide TotalMass, TotalLoad, TotalStoppers, StopChunks, Sum, Ranked, Mass;
    var w := s.slaves[k];
    assert SlaveInv(cfg, w);
    assert w.inbox == [] && w.outbox == [];
    hide SlaveInv, RunningInv;
    var m := Ranked(w.work.chunk, w.out);
    MassOfWorker(w, m);
    assert w.outbox + [m] == [m];
  }

  lemma MassOfWorker(w: Slave, m: seq<int>)
    requires w.work.Sorting? && w.inbox == [] && w.outbox == []
    ensures Mass(w) == Sum(w.work.chunk) && Mass(w.(work := Idle, out := m, outbox := [m])) == Sum(m)
  {
    hide Sum;
    SumAllOfOne(m);
  }

  lemma UntidyReply(s: State, k: nat)
    requires k < |s.slaves| && |s.slaves[k].outbox| == 1 && !Sorted(s.slaves[k].outbox[0])
    ensures Untidy(s)
  {
    assert !RepliesSorted(s.slaves[k]);
  }

  lemma OthersUntidy(s: State, s': State, k: nat)
    requires k < |s.slaves| == |s'.slaves| && s' == s.(slaves := s.slaves[k := s'.slaves[k]]) && s.slaves[k].outbox == []
    ensures Untidy(s) ==> Untidy(s')
  {
    assert RepliesSorted(s.slaves[k]);
    if i :| 0 <= i < |s.slaves| && !RepliesSorted(s.slaves[i]) {
      assert !RepliesSorted(s'.slaves[i]);
    }
  }

  lemma AnswersWeigh(cfg: Config, s: State, k: nat)
    requires RunningInv(cfg, s) && Enabled(cfg, s, SlaveReplies(k))
    ensures var s' := Apply(cfg, s, SlaveReplies(k));
      && NoBetter(cfg, s, s')
      && (!AnswersRight(cfg, s, SlaveReplies(k)) ==> Untidy(s') || Balance(cfg, s') > Balance(cfg, s))
  {
    var w, s' := s.slaves[k], Apply(cfg, s, SlaveReplies(k));
    var m := Ranked(w.work.chunk, w.out);
    AnswerAlone(cfg, s, k);
    assert w.outbox == [] by { assert SlaveInv(cfg, w); }
    hide TotalMass, Mass, TotalLoad, TotalStoppers, StopChunks, SentSum, Sum, Sorted, Sort, Ranked, SlaveInv, Untidy;
    MassAfter(s.slaves, k, s'.slaves[k]);
    OthersUntidy(s, s', k);
    if Sorted(m) {
      AnswerWeighs(w.work.chunk, w.out);
    } else {
      UntidyReply(s', k);
    }
  }

  lemma ReplyAlone(cfg: Config, s: State, k: nat)
    requires RunningInv(cfg, s) && Enabled(cfg, s, MasterReceives(k))
    ensures var w, s' := s.slaves[k], Apply(cfg, s, MasterReceives(k));
      && w.outbox == [w.outbox[0]] && s'.slaves[k].outbox == []
      && Mass(w) == Sum(w.outbox[0]) && Mass(s'.slaves[k]) == 0
      && s'.sorted == Merged(s.sorted, w.outbox[0])
  {
    hide TotalMass, TotalLoad, TotalStoppers, StopChunks, Sum;
    var w := s.slaves[k];
    assert SlaveInv(cfg, w);
    assert w.outbox == [w.outbox[0]] && w.outbox[1..] == [];
    SumAllOfOne(w.outbox[0]);
    if s.received == 0 {
      assert s.sorted == [];
    }
  }

  lemma MergeUntidy(s: State, s': State, k: nat)
    requires k < |s.slaves| == |s'.slaves| && |s.slaves[k].outbox| == 1 && s'.slaves == s.slaves[k := s'.slaves[k]]
    requires s'.sorted == Merged(s.sorted, s.slaves[k].outbox[0])
    ensures Untidy(s) ==> Untidy(s')
  {
    hide Merged, Sorted;
    var m := s.slaves[k].outbox[0];
    if Sorted(s'.sorted) {
      MergedFromSorted(s.sorted, m);
      assert RepliesSorted(s.slaves[k]);
      if i :| 0 <= i < |s.slaves| && !RepliesSorted(s.slaves[i]) {
        assert !RepliesSorted(s'.slaves[i]);
      }
    }
  }

  lemma ReplyWeighs(cfg: Config, s: State, k: nat)
    requires RunningInv(cfg, s) && Enabled(cfg, s, MasterReceives(k))
    ensures NoBetter(cfg, s, Apply(cfg, s, MasterReceives(k)))
  {
    var w, s' := s.slaves[k], Apply(cfg, s, MasterReceives(k));
    ReplyAlone(cfg, s, k);
    hide TotalMass, Mass, TotalLoad, TotalStoppers, StopChunks, SentSum, Sum, Sorted, Merged, SlaveInv, Untidy;
    MassAfter(s.slaves, k, s'.slaves[k]);
    SumOfMerged(s.sorted, w.outbox[0]);
    MergeUntidy(s, s', k);
  }

  // ---------- harm ----------

  predicate Over(s: State) {
    s.phase.Stop? || s.phase.Done?
  }

  // The farm will not leave the sorted input any more.
  ghost predicate Harmed(cfg: Config, s: State)
    requires cfg.Valid() && s.sent <= cfg.Tasks()
  {
    if Over(s) then s.sorted != Sort(cfg.input) else Untidy(s) || Balance(cfg, s) > 0
  }

  // No step loses weight, but for disorder.
  ghost predicate Weighed(cfg: Config, s: State)
    requires cfg.Valid() && s.sent <= cfg.Tasks()
  {
    !Over(s) ==> Untidy(s) || Balance(cfg, s) >= 0
  }

  lemma SentFits(cfg: Config, s: State)
    requires Inv(cfg, s)
    ensures cfg.Valid() && s.sent <= cfg.Tasks()
    ensures RunningInv(cfg, s) <==> !Over(s)
    ensures EndingInv(cfg, s) <==> Over(s)
  {
    hide TotalLoad, TotalStoppers, StopChunks, SlaveInv;
  }

  // When the last reply is in, disorder or too much weight means that the result is wrong.
  lemma HarmShows(cfg: Config, s: State)
    requires RunningInv(cfg, s) && s.phase.Gather? && s.open == 0 && (Untidy(s) || Balance(cfg, s) > 0)
    ensures s.sorted != Sort(cfg.input)
  {
    hide TotalStoppers, StopChunks, Sort, Sum, Sorted, SentSum;
    StopsGathering(cfg, s);
    NobodyIsLoaded(s.slaves);
    hide TotalLoad;
    forall k | 0 <= k < |s.slaves| ensures Ready(s.slaves[k]) && RepliesSorted(s.slaves[k]) {
      assert SlaveInv(cfg, s.slaves[k]);
    }
    NoMass(s.slaves);
    AllSent(cfg);
    SortIsSortedPermutation(cfg.input);
    if s.sorted == Sort(cfg.input) {
      SumOfPermutation(cfg.input, s.sorted);
    }
  }

  lemma RunningStep(cfg: Config, s: State, act: Act)
    requires RunningInv(cfg, s) && Enabled(cfg, s, act) && !Over(Apply(cfg, s, act))
    ensures Apply(cfg, s, act).sent <= cfg.Tasks() && NoBetter(cfg, s, Apply(cfg, s, act))
  {
    hide Balance, Untidy, SendChunk, SlaveInv, TotalLoad, TotalStoppers, StopChunks, Ranked, Merged, Config.Chunk;
    match act
    case MasterReceives(k) => ReplyWeighs(cfg, s, k);
    case SlaveReceives(k) => TakenWeighs(cfg, s, k);
    case SlaveReplies(k) => AnswersWeigh(cfg, s, k);
    case MasterSteps => MasterStep(cfg, s);
  }

  lemma MasterStep(cfg: Config, s: State)
    requires RunningInv(cfg, s) && Enabled(cfg, s, MasterSteps) && !Over(Apply(cfg, s, MasterSteps))
    ensures Apply(cfg, s, MasterSteps).sent <= cfg.Tasks() && NoBetter(cfg, s, Apply(cfg, s, MasterSteps))
  {
    hide SlaveInv, TotalLoad, TotalStoppers, StopChunks, Config.Chunk, TotalMass, SentSum, Sum, Sorted;
    var s' := Apply(cfg, s, MasterSteps);
    match s.phase
    case Dispatch(k) =>
      if k < |s.slaves| { SendWeighs(cfg, s, k, Dispatch(k + 1)); } else { SameReplies(s, s'); }
    case Redispatch(k) =>
      if s.sent < cfg.Tasks() { SendWeighs(cfg, s, k, Gather); } else { SameReplies(s, s'); }
    case _ =>
  }

  // Harm stays, and no weight is lost, whatever happens next.
  lemma HarmStays(cfg: Config, s: State, act: Act)
    requires Inv(cfg, s) && Enabled(cfg, s, act)
    ensures cfg.Valid() && s.sent <= cfg.Tasks() && Apply(cfg, s, act).sent <= cfg.Tasks()
    ensures Harmed(cfg, s) ==> Harmed(cfg, Apply(cfg, s, act))
    ensures Weighed(cfg, s) ==> Weighed(cfg, Apply(cfg, s, act))
  {
    var s' := Apply(cfg, s, act);
    StepKeepsInv(cfg, s, act);
    SentFits(cfg, s);
    SentFits(cfg, s');
    hide Untidy, Balance, Sort;
    if Over(s) {
      EndingKeeps(cfg, s, act);
      EndingStays(cfg, s, act);
    } else if Over(s') {
      LastStep(cfg, s, act);
      hide Apply, Enabled, RunningInv, EndingInv;
      if Harmed(cfg, s) { HarmShows(cfg, s); }
    } else {
      hide Apply, Enabled, RunningInv, EndingInv;
      RunningStep(cfg, s, act);
    }
  }

  // The master stops when nothing is out.
  lemma LastStep(cfg: Config, s: State, act: Act)
    requires RunningInv(cfg, s) && Enabled(cfg, s, act) && Over(Apply(cfg, s, act))
    ensures s.phase.Gather? && s.open == 0 && Apply(cfg, s, act).sorted == s.sorted
  {
    hide SlaveInv, TotalLoad, TotalStoppers, StopChunks, Config.Chunk, Merged, Ranked;
  }

  // A wrong answer does harm.
  lemma WrongAnswerHarms(cfg: Config, s: State, k: nat)
    requires RunningInv(cfg, s) && Enabled(cfg, s, SlaveReplies(k)) && Weighed(cfg, s)
    requires !AnswersRight(cfg, s, SlaveReplies(k))
    ensures Apply(cfg, s, SlaveReplies(k)).sent <= cfg.Tasks() && Harmed(cfg, Apply(cfg, s, SlaveReplies(k)))
  {
    AnswersWeigh(cfg, s, k);
    hide Untidy, Balance, AnswersRight, SlaveInv, TotalLoad, TotalStoppers, StopChunks, Ranked;
  }
}
