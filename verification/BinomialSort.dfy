// The divide-and-conquer sort (PPD/MPI/T3/dc.c) as a machine of concurrent ranks with FIFO
// channels: any enabled rank may take the next step, and a receive from any source may take
// the first message of any channel that holds one.
module BinomialSort {
  import opened SortSpec
  import opened BinomialTree
  import opened Merging

  // Where a rank stands in its program.
  datatype Pc =
    | AwaitTask              // the first receive, from any source
    | AwaitLevel             // the second receive, from the source of the task
    | Split                  // at the guard of the fan-out loop
    | Announce(child: nat)   // the half is sent, the level is not yet
    | Collect                // own part sorted; at the guard of the fan-in loop
    | Done

  // buf is the used part of the work array; children counts the halves sent away.
  datatype Proc = Proc(pc: Pc, source: nat, level: nat, buf: seq<int>, children: nat)

  datatype State = State(procs: seq<Proc>, chans: map<(nat, nat), seq<seq<int>>>)

  // The messages on their way from i to j.
  function Chan(s: State, i: nat, j: nat): seq<seq<int>> {
    if (i, j) in s.chans then s.chans[(i, j)] else []
  }

  function Push(s: State, i: nat, j: nat, m: seq<int>): State {
    s.(chans := s.chans[(i, j) := Chan(s, i, j) + [m]])
  }

  function Pop(s: State, i: nat, j: nat): State
    requires Chan(s, i, j) != []
  {
    s.(chans := s.chans[(i, j) := Chan(s, i, j)[1..]])
  }

  function SetProc(s: State, r: nat, p: Proc): State
    requires r < |s.procs|
  {
    s.(procs := s.procs[r := p])
  }

  // ---------- the steps of rank r ----------

  datatype Act = TakeTask(src: nat) | TakeLevel | SendHalf | SendLevel | SortOwn | TakeReply(src: nat) | Finish

  // The loop guards: the root compares sizes, every other rank counts its children.
  predicate MoreReplies(cfg: Config, p: Proc, r: nat) {
    if r == 0 then |p.buf| < |cfg.input| else p.children > 0
  }

  predicate Enabled(cfg: Config, s: State, r: nat, act: Act) {
    r < |s.procs| && var p := s.procs[r]; match act
    case TakeTask(src) => p.pc.AwaitTask? && Chan(s, src, r) != []
    case TakeLevel => p.pc.AwaitLevel? && Chan(s, p.source, r) != [] && |Chan(s, p.source, r)[0]| == 1
    case SendHalf => p.pc.Split? && |p.buf| > cfg.ts
    case SendLevel => p.pc.Announce?
    case SortOwn => p.pc.Split? && |p.buf| <= cfg.ts
    case TakeReply(src) => p.pc.Collect? && MoreReplies(cfg, p, r) && Chan(s, src, r) != []
    case Finish => p.pc.Collect? && !MoreReplies(cfg, p, r)
  }

  function Apply(cfg: Config, s: State, r: nat, act: Act): State
    requires Enabled(cfg, s, r, act)
  {
    var p := s.procs[r];
    match act
    case TakeTask(src) =>
      SetProc(Pop(s, src, r), r, p.(pc := AwaitLevel, source := src, buf := Chan(s, src, r)[0]))
    case TakeLevel =>
      var level := Chan(s, p.source, r)[0][0];
      SetProc(Pop(s, p.source, r), r, p.(pc := Split, level := if level < 0 then 0 else level))
    case SendHalf =>
      var half := |p.buf| / 2;
      var child := r + Pow2(p.level);
      SetProc(Push(s, r, child, p.buf[half..half + half]), r,
              p.(pc := Announce(child), level := p.level + 1, buf := p.buf[..half],
                 children := if r == 0 then p.children else p.children + 1))
    case SendLevel =>
      SetProc(Push(s, r, p.pc.child, [p.level]), r, p.(pc := Split))
    case SortOwn =>
      SetProc(s, r, p.(pc := Collect, buf := Sort(p.buf)))
    case TakeReply(src) =>
      SetProc(Pop(s, src, r), r, p.(buf := Merged(p.buf, Chan(s, src, r)[0]),
                                    children := if r == 0 then p.children else p.children - 1))
    case Finish =>
      if r == 0 then SetProc(s, r, p.(pc := Done))
      else SetProc(Push(s, r, p.source, p.buf), r, p.(pc := Done))
  }

  function Init(cfg: Config): State {
    State(seq(cfg.Ranks(), r => if r == 0 then Proc(Split, 0, 0, cfg.input, 0) else Proc(AwaitTask, 0, 0, [], 0)), map[])
  }

  // ---------- the invariant ----------

  predicate Busy(pc: Pc) {
    !pc.AwaitTask? && !pc.AwaitLevel?
  }

  // The child that rank p got at level l has sent its reply and p has taken it.
  ghost predicate Replied(s: State, p: nat, l: nat) {
    p + Pow2(l) < |s.procs| && s.procs[p + Pow2(l)].pc.Done? && Chan(s, p + Pow2(l), p) == []
  }

  // The values that the replies taken so far, and rank p itself, account for.
  ghost function Gathered(cfg: Config, s: State, p: nat, l: nat): multiset<int>
    requires cfg.Valid() && l <= cfg.k && p < Pow2(l)
    decreases cfg.k - l
  {
    if l == cfg.k then multiset(cfg.Block(p, l))
    else (if Replied(s, p, l) then multiset(cfg.Block(p + Pow2(l), l + 1)) else multiset{}) + Gathered(cfg, s, p, l + 1)
  }

  // How many replies are still to be taken.
  ghost function Missing(cfg: Config, s: State, p: nat, l: nat): nat
    requires l <= cfg.k
    decreases cfg.k - l
  {
    if l == cfg.k then 0 else (if Replied(s, p, l) then 0 else 1) + Missing(cfg, s, p, l + 1)
  }

  // What rank r holds, at every point of its program.
  ghost predicate NodeInv(cfg: Config, s: State, r: nat)
    requires cfg.Valid() && |s.procs| == cfg.Ranks() && r < cfg.Ranks()
  {
    var p, from := s.procs[r], Level(r, cfg.k);
    match p.pc
    case AwaitTask => r > 0 && p.children == 0
    case AwaitLevel => r > 0 && p.children == 0 && p.buf == cfg.Block(r, from)
    case Split =>
      from <= p.level <= cfg.k && (LevelBelow(r, p.level, cfg.k); p.buf == cfg.Block(r, p.level))
      && (r > 0 ==> p.children == p.level - from)
    case Announce(child) =>
      from < p.level <= cfg.k && (LevelBelow(r, p.level, cfg.k); p.buf == cfg.Block(r, p.level))
      && (r > 0 ==> p.children == p.level - from) && child == r + Pow2(p.level - 1)
    case Collect =>
      p.level == cfg.k && Sorted(p.buf) && multiset(p.buf) == Gathered(cfg, s, r, from)
      && (r > 0 ==> p.children == Missing(cfg, s, r, from))
    case Done => p.level == cfg.k && p.buf == Sort(cfg.Block(r, from))
  }

  // Rank p has sent the task, and its level, to the child of level l.
  ghost predicate SentTask(p: Proc, l: nat) {
    Busy(p.pc) && p.level > l
  }

  ghost predicate SentLevel(p: Proc, l: nat, child: nat) {
    SentTask(p, l) && p.pc != Announce(child)
  }

  // What is on its way between rank p and the child c it gets at level l.
  ghost predicate EdgeInv(cfg: Config, s: State, p: nat, l: nat)
    requires cfg.Valid() && |s.procs| == cfg.Ranks() && l < cfg.k && p < Pow2(l)
  {
    ChildOf(p, l, cfg.k);
    var c := p + Pow2(l);
    var up, low := s.procs[p], s.procs[c];
    && (!low.pc.AwaitTask? ==> SentTask(up, l) && low.source == p)
    && (Busy(low.pc) ==> SentLevel(up, l, c))
    && Chan(s, p, c) == (if SentTask(up, l) && low.pc.AwaitTask? then [cfg.Block(c, l + 1)] else [])
                        + (if SentLevel(up, l, c) && !Busy(low.pc) then [[l + 1]] else [])
    && (Chan(s, c, p) != [] ==> low.pc.Done? && Chan(s, c, p) == [Sort(cfg.Block(c, l + 1))])
    && (low.pc.Done? && Chan(s, c, p) == [] ==> up.pc.Collect? || up.pc.Done?)
    && (up.pc.Done? ==> low.pc.Done? && Chan(s, c, p) == [])
  }

  // Messages travel along tree edges only.
  ghost predicate TreeEdge(cfg: Config, i: nat, j: nat) {
    exists l :: IsChild(cfg, i, l, j) || IsChild(cfg, j, l, i)
  }

  ghost predicate IsChild(cfg: Config, p: nat, l: nat, c: nat) {
    l < cfg.k && p < Pow2(l) && c == p + Pow2(l)
  }

  ghost predicate Inv(cfg: Config, s: State) {
    && cfg.Valid()
    && |s.procs| == cfg.Ranks()
    && (forall r :: 0 <= r < cfg.Ranks() ==> NodeInv(cfg, s, r))
    && (forall p, l :: 0 <= l < cfg.k && 0 <= p < Pow2(l) ==> EdgeInv(cfg, s, p, l))
    && (forall i, j :: Chan(s, i, j) != [] ==> TreeEdge(cfg, i, j))
  }
}
