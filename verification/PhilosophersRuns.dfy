// Whole runs of the dinner: safety from start to end, a meal within reach of everybody, the
// lockstep in which nobody eats, and the end of the dinner.
module PhilosophersRuns {
  import opened Philosophers
  import opened PhilosophersProof

  // ts is a run from s: the threads that take the steps, in order.
  predicate Run(n: nat, s: State, ts: seq<Thread>)
    requires Sized(n, s)
    decreases |ts|
  {
    ts == [] || (Enabled(n, s, ts[0]) && Run(n, Apply(n, s, ts[0]), ts[1..]))
  }

  function End(n: nat, s: State, ts: seq<Thread>): (e: State)
    requires Sized(n, s) && Run(n, s, ts)
    ensures Sized(n, e)
    decreases |ts|
  {
    if ts == [] then s else End(n, Apply(n, s, ts[0]), ts[1..])
  }

  lemma {:induction false} RunKeepsInv(n: nat, s: State, ts: seq<Thread>)
    requires Inv(n, s) && Run(n, s, ts)
    ensures Inv(n, End(n, s, ts))
    decreases |ts|
  {
    if ts != [] {
      StepKeepsInv(n, s, ts[0]);
      RunKeepsInv(n, Apply(n, s, ts[0]), ts[1..]);
    }
  }

  // ---------- what the reports count ----------

  // The steps of a run that are failed tries of p, and those by which it gets both forks.
  function FailedTries(n: nat, s: State, ts: seq<Thread>, p: nat): nat
    requires Sized(n, s) && Run(n, s, ts) && p < n
    decreases |ts|
  {
    if ts == [] then 0
    else (if FailedTry(n, s, ts[0], p) then 1 else 0) + FailedTries(n, Apply(n, s, ts[0]), ts[1..], p)
  }

  function TimesBoth(n: nat, s: State, ts: seq<Thread>, p: nat): nat
    requires Sized(n, s) && Run(n, s, ts) && p < n
    decreases |ts|
  {
    if ts == [] then 0
    else (if TakesBoth(n, s, ts[0], p) then 1 else 0) + TimesBoth(n, Apply(n, s, ts[0]), ts[1..], p)
  }

  // One step, once the record of p is filled in: exactly the tries and meals of p are counted.
  lemma StepIsReported(n: nat, s: State, t: Thread, p: nat)
    requires Inv(n, s) && Enabled(n, s, t) && p < s.filled
    ensures p < n && p < Apply(n, s, t).filled
    ensures var w, v := s.phils[p], Apply(n, s, t).phils[p];
      && Attempts(v) == Attempts(w) + (if FailedTry(n, s, t, p) then 1 else 0)
      && Meals(v) == Meals(w) + (if TakesBoth(n, s, t, p) then 1 else 0)
  {
    hide ForkInv, PhilInv, Passed;
    match t
    case MainThread =>
    case Phil(q) =>
      PhilEffect(n, s, q);
      hide PhilStep, Attempts, Meals, FailedTry, TakesBoth, Total;
      if q != p {
        NotItsTurn(n, s, q, p);
      }
  }

  lemma NotItsTurn(n: nat, s: State, q: nat, p: nat)
    requires Sized(n, s) && p < n && q != p
    ensures !FailedTry(n, s, Phil(q), p) && !TakesBoth(n, s, Phil(q), p)
  {}

  // A record that is not filled in yet is that of a philosopher who has not sat down.
  lemma NotSeated(n: nat, s: State, t: Thread, p: nat)
    requires Inv(n, s) && Enabled(n, s, t) && s.filled <= p < n
    ensures !FailedTry(n, s, t, p) && !TakesBoth(n, s, t, p)
    ensures var r := Apply(n, s, t);
      p < r.filled ==> Attempts(r.phils[p]) == 0 && Meals(r.phils[p]) == 0
  {
    hide ForkInv, PhilInv, Passed;
    if AtTable(s.phils[p].pc) {
      TableIsLaid(n, s, p);
    }
  }

  // From any state of a dinner on, a report counts what happens...
  lemma {:induction false} SeatedIsReported(n: nat, s: State, ts: seq<Thread>, p: nat)
    requires Inv(n, s) && Run(n, s, ts) && p < s.filled
    ensures p < n && p < End(n, s, ts).filled
    ensures Attempts(End(n, s, ts).phils[p]) == Attempts(s.phils[p]) + FailedTries(n, s, ts, p)
    ensures Meals(End(n, s, ts).phils[p]) == Meals(s.phils[p]) + TimesBoth(n, s, ts, p)
    decreases |ts|
  {
    hide MainInv, PhilInv, ForkInv, Enabled, Apply, FailedTry, TakesBoth, Attempts, Meals;
    assert p < n by { FilledUp(n, s); }
    if ts != [] {
      StepIsReported(n, s, ts[0], p);
      StepKeepsInv(n, s, ts[0]);
      SeatedIsReported(n, Apply(n, s, ts[0]), ts[1..], p);
    }
  }

  lemma FilledUp(n: nat, s: State)
    requires Inv(n, s)
    ensures s.filled <= n
  {}

  lemma {:induction false} UnseatedIsReported(n: nat, s: State, ts: seq<Thread>, p: nat)
    requires Inv(n, s) && Run(n, s, ts) && s.filled <= p < n && p < End(n, s, ts).filled
    ensures Attempts(End(n, s, ts).phils[p]) == FailedTries(n, s, ts, p)
    ensures Meals(End(n, s, ts).phils[p]) == TimesBoth(n, s, ts, p)
    decreases |ts|
  {
    hide MainInv, PhilInv, ForkInv, Enabled, Apply, FailedTry, TakesBoth, Attempts, Meals;
    NotSeated(n, s, ts[0], p);
    StepKeepsInv(n, s, ts[0]);
    var r := Apply(n, s, ts[0]);
    if p < r.filled {
      SeatedIsReported(n, r, ts[1..], p);
    } else {
      UnseatedIsReported(n, r, ts[1..], p);
    }
  }

  // ...and over a whole run, from before the start-up: once its record is there, the attempts of p are
  // the tries at a held fork, its own or the right one, and its meals and thoughts the times it got both
  // forks; one of them may still be to be written down.
  ghost predicate Reported(n: nat, s: State, ts: seq<Thread>, p: nat)
    requires Sized(n, s) && Run(n, s, ts) && p < n
  {
    var w := End(n, s, ts).phils[p];
    && w.tentou + (if w.pc.Release? || w.pc.Backoff? then 1 else 0) == FailedTries(n, s, ts, p)
    && w.comeu + (if w.pc.Eating? then 1 else 0) == TimesBoth(n, s, ts, p)
    && w.pensou + (if Eats(w.pc) || w.pc.PutRight? || w.pc.Thinking? then 1 else 0) == TimesBoth(n, s, ts, p)
  }

  lemma ReportsCount(n: nat, s: State, ts: seq<Thread>, p: nat)
    requires n >= 1 && Initial(n, s) && Run(n, s, ts) && p < n && p < End(n, s, ts).filled
    ensures Reported(n, s, ts, p)
  {
    hide Run, End, MainInv, ForkInv, FailedTries, TimesBoth;
    InitHolds(n, s);
    UnseatedIsReported(n, s, ts, p);
    RunKeepsInv(n, s, ts);
    assert PhilInv(End(n, s, ts), p);
  }

  // What holds of philosopher p, and of fork p, in every state of a dinner.
  ghost predicate Safe(n: nat, e: State, p: nat)
    requires Sized(n, e) && p < n
  {
    && !(Eats(e.phils[p].pc) && Eats(e.phils[Right(n, p)].pc))
    && (p < e.filled ==> 0 <= e.phils[p].comeu - e.phils[p].pensou <= 1)
    && (forall q :: 0 <= q < n ==> (Holds(n, e, q, p) <==> e.forks[p] == Held(q)))
    && (e.filled < n ==> e.forks[p].Free?)
    && (AtTable(e.phils[p].pc) ==> e.filled == n && (e.phils[p].pc.Ended? || e.destroyed == 0))
    && (e.main.Destroy? || e.main.Finished? ==>
          e.forks[p].Free? && e.phils[p].pc.Ended? && e.phils[p].comeu == e.phils[p].pensou)
  }

  // Every run of n >= 1 philosophers, in any interleaving: at most half eat, neighbours never at once;
  // meals and thoughts differ by at most one; a fork has one holder, and is in use only while all forks
  // exist; at the end everything is back; and every report counts what happened.
  lemma DinnerIsSafe(n: nat, s: State, ts: seq<Thread>)
    requires n >= 1 && Initial(n, s) && Run(n, s, ts)
    ensures var e := End(n, s, ts);
      2 * |Eaters(n, e)| <= n && forall p :: 0 <= p < n ==> Safe(n, e, p)
    ensures forall p :: 0 <= p < n && p < End(n, s, ts).filled ==> Reported(n, s, ts, p)
  {
    hide MainInv, PhilInv, ForkInv, Run, End, Enabled, Eaters, Safe, Reported;
    InitHolds(n, s);
    RunKeepsInv(n, s, ts);
    var e := End(n, s, ts);
    AtMostHalfEat(n, e);
    forall p | 0 <= p < n ensures Safe(n, e, p) {
      EveryoneIsSafe(n, e, p);
    }
    forall p | 0 <= p < n && p < e.filled ensures Reported(n, s, ts, p) {
      ReportsCount(n, s, ts, p);
    }
  }

  lemma EveryoneIsSafe(n: nat, e: State, p: nat)
    requires Inv(n, e) && p < n
    ensures Safe(n, e, p)
  {
    hide MainInv, PhilInv, ForkInv, Holds;
    NeighboursNeverEatTogether(n, e, p);
    if p < e.filled { MealsAndThoughts(n, e, p); }
    forall q | 0 <= q < n ensures Holds(n, e, q, p) <==> e.forks[p] == Held(q) {
      ForksHaveOneHolder(n, e, p, q);
    }
    if e.filled < n { UntouchedBeforeTheFeast(n, e, p); }
    if AtTable(e.phils[p].pc) { ForksAreThereWhenTouched(n, e, p); }
    if e.main.Destroy? || e.main.Finished? { EndOfTheDinner(n, e, p); }
  }

  // ---------- putting runs together ----------

  lemma {:induction false} Append(n: nat, s: State, ts: seq<Thread>, us: seq<Thread>)
    requires Sized(n, s) && Run(n, s, ts) && Run(n, End(n, s, ts), us)
    ensures Run(n, s, ts + us) && End(n, s, ts + us) == End(n, End(n, s, ts), us)
    decreases |ts|
  {
    hide Enabled, Apply;
    if ts == [] {
      assert ts + us == us;
    } else {
      assert (ts + us)[0] == ts[0] && (ts + us)[1..] == ts[1..] + us;
      Append(n, Apply(n, s, ts[0]), ts[1..], us);
    }
  }

  lemma Single(n: nat, s: State, t: Thread)
    requires Sized(n, s) && Enabled(n, s, t)
    ensures Run(n, s, [t]) && End(n, s, [t]) == Apply(n, s, t)
  {
    hide Enabled, Apply;
    assert [t][1..] == [];
    assert Run(n, Apply(n, s, t), []);
  }

  // ---------- a meal within reach ----------

  // Steps of one philosopher to the head of its loop.
  function ToGuard(pc: Pc): nat {
    match pc
    case Waiting => 1
    case TryOwn => 7
    case TryRight => 6
    case Eating => 5
    case PutOwn => 4
    case PutRight => 3
    case Thinking => 2
    case Release => 3
    case Backoff => 2
    case _ => 0
  }

  // While the dinner lasts a philosopher not at the head of its loop can take a step towards it.
  lemma DrainStep(n: nat, s: State, q: nat)
    requires Inv(n, s) && s.main.Sleep? && q < n && !s.phils[q].pc.Guard?
    ensures Enabled(n, s, Phil(q))
    ensures var r := PhilStep(n, s, q);
      && r.main == s.main && ToGuard(r.phils[q].pc) < ToGuard(s.phils[q].pc)
      && r.phils == s.phils[q := r.phils[q]] && r.phils[q].comeu >= s.phils[q].comeu
  {
    assert PhilInv(s, q);
    if s.phils[q].pc.Waiting? {
      TotalAtMost(s.phils, PassedOne);
      assert PassedOne(s.phils[q].pc) == 0;
    }
  }

  // Philosopher q goes to the head of its loop while everybody else stands still.
  lemma {:induction false} Drain(n: nat, s: State, q: nat) returns (ts: seq<Thread>)
    requires Inv(n, s) && s.main.Sleep? && q < n
    ensures Run(n, s, ts)
    ensures var e := End(n, s, ts);
      && Inv(n, e) && e.main.Sleep? && e.phils[q].pc.Guard?
      && e.phils == s.phils[q := e.phils[q]] && e.phils[q].comeu >= s.phils[q].comeu
    decreases ToGuard(s.phils[q].pc)
  {
    if s.phils[q].pc.Guard? {
      ts := [];
      assert s.phils == s.phils[q := s.phils[q]];
    } else {
      DrainStep(n, s, q);
      hide Inv, PhilStep, Enabled, ToGuard;
      var r := PhilStep(n, s, q);
      assert Apply(n, s, Phil(q)) == r;
      StepKeepsInv(n, s, Phil(q));
      assert Run(n, s, [Phil(q)]) && End(n, s, [Phil(q)]) == r by { Single(n, s, Phil(q)); }
      var us := Drain(n, r, q);
      Append(n, s, [Phil(q)], us);
      ts := [Phil(q)] + us;
    }
  }

  // Both forks are free when the three philosophers around them are at the head of their loops.
  lemma ForksLieFree(n: nat, s: State, p: nat)
    requires Inv(n, s) && p < n && s.phils[p].pc.Guard?
    requires s.phils[Left(n, p)].pc.Guard? && s.phils[Right(n, p)].pc.Guard?
    ensures s.forks[p].Free? && s.forks[Right(n, p)].Free?
  {
    RightAndLeft(n, p);
    assert ForkInv(n, s, p) && ForkInv(n, s, Right(n, p));
  }

  // From the head of its loop a philosopher with both forks free eats in four steps.
  lemma EatsWithFreeForks(n: nat, s: State, p: nat) returns (ts: seq<Thread>)
    requires n >= 2 && Sized(n, s) && p < n && s.phils[p].pc.Guard? && s.fim
    requires s.forks[p].Free? && s.forks[Right(n, p)].Free?
    ensures Run(n, s, ts) && |ts| == 4
    ensures var e := End(n, s, ts);
      && e.phils[p].pc.PutOwn? && e.phils[p].comeu == s.phils[p].comeu + 1
  {
    RightAndLeft(n, p);
    var t := Phil(p);
    var s1 := Apply(n, s, t);
    var s2 := Apply(n, s1, t);
    assert s2.forks[Right(n, p)].Free?;
    var s3 := Apply(n, s2, t);
    assert s3.phils[p].pc.Eating?;
    var s4 := Apply(n, s3, t);
    assert s4.phils[p].pc.PutOwn? && s4.phils[p].comeu == s.phils[p].comeu + 1;
    hide Apply, Enabled;
    assert [t, t, t, t][1..] == [t, t, t] && [t, t, t][1..] == [t, t] && [t, t][1..] == [t] && [t][1..] == [];
    assert Run(n, s4, []);
    assert Run(n, s3, [t]) && Run(n, s2, [t, t]) && Run(n, s1, [t, t, t]);
    assert End(n, s3, [t]) == s4 && End(n, s2, [t, t]) == s4 && End(n, s1, [t, t, t]) == s4;
    ts := [t, t, t, t];
    assert Run(n, s, ts);
  }

  // The main thread goes to sleep by itself, from anywhere in the start-up.
  function ToSleep(n: nat, m: Main): nat {
    match m
    case Create(i) => if i < n then 2 * (n - i) + n + 2 else 0
    case Fill(i) => if i < n then 2 * (n - i) + n + 1 else 0
    case Post(i) => if i < n then n - i + 1 else 1
    case _ => 0
  }

  lemma StartUpStep(n: nat, s: State)
    requires Inv(n, s) && s.fim && !s.main.Sleep?
    ensures Enabled(n, s, MainThread)
    ensures var r := MainStep(n, s);
      && r.fim && ToSleep(n, r.main) < ToSleep(n, s.main)
      && |r.phils| == |s.phils|
      && forall p :: 0 <= p < s.filled ==> r.phils[p].comeu == s.phils[p].comeu
  {}

  lemma FilledGrows(n: nat, s: State)
    requires Inv(n, s) && Enabled(n, s, MainThread)
    ensures s.filled <= MainStep(n, s).filled <= n
  {}

  lemma {:induction false} StartUp(n: nat, s: State) returns (ts: seq<Thread>)
    requires Inv(n, s) && s.fim
    ensures Run(n, s, ts)
    ensures var e := End(n, s, ts);
      && Inv(n, e) && e.main.Sleep?
      && s.filled <= n && forall p :: 0 <= p < s.filled ==> e.phils[p].comeu == s.phils[p].comeu
    decreases ToSleep(n, s.main)
  {
    if s.main.Sleep? {
      ts := [];
    } else {
      StartUpStep(n, s);
      FilledGrows(n, s);
      hide MainInv, PhilInv, ForkInv, MainStep, Enabled, ToSleep;
      var r := MainStep(n, s);
      assert Apply(n, s, MainThread) == r;
      StepKeepsInv(n, s, MainThread);
      assert Run(n, s, [MainThread]) && End(n, s, [MainThread]) == r by { Single(n, s, MainThread); }
      var us := StartUp(n, r);
      Append(n, s, [MainThread], us);
      ts := [MainThread] + us;
    }
  }

  // While everybody at the table stands at the head of its loop, a meal is four steps away.
  lemma ClearTheTable(n: nat, s: State, p: nat) returns (ts: seq<Thread>)
    requires Inv(n, s) && s.main.Sleep? && p < n
    ensures Run(n, s, ts)
    ensures var e := End(n, s, ts);
      && Inv(n, e) && e.main.Sleep? && e.phils[p].pc.Guard? && e.phils[p].comeu >= s.phils[p].comeu
      && e.phils[Left(n, p)].pc.Guard? && e.phils[Right(n, p)].pc.Guard?
  {
    RightAndLeft(n, p);
    hide MainInv, PhilInv, ForkInv, Run, End, Left, Right;
    var xs := Drain(n, s, p);
    var s1 := End(n, s, xs);
    var bs := Drain(n, s1, Left(n, p));
    var s2 := End(n, s1, bs);
    var cs := Drain(n, s2, Right(n, p));
    Append(n, s1, bs, cs);
    Append(n, s, xs, bs + cs);
    ts := xs + (bs + cs);
  }

  // From every reachable state of the dinner, start-up included, there is a continuation in which
  // any chosen philosopher eats once more, if there are at least two of them.
  lemma MealWithinReach(n: nat, s: State, p: nat) returns (ts: seq<Thread>)
    requires n >= 2 && Inv(n, s) && s.fim && p < n
    ensures Run(n, s, ts)
    ensures var e := End(n, s, ts);
      && Eats(e.phils[p].pc) && (p < s.filled ==> e.phils[p].comeu > s.phils[p].comeu)
  {
    hide MainInv, PhilInv, ForkInv, Run, End, Left, Right;
    var xs := StartUp(n, s);
    var s1 := End(n, s, xs);
    var bs := ClearTheTable(n, s1, p);
    var s2 := End(n, s1, bs);
    assert s2.fim by { SleepingLasts(n, s2); }
    ForksLieFree(n, s2, p);
    var cs := EatsWithFreeForks(n, s2, p);
    Append(n, s1, bs, cs);
    Append(n, s, xs, bs + cs);
    ts := xs + (bs + cs);
  }

  // A meal is within reach if and only if there are two philosophers or more.
  lemma MealExactly(n: nat, s: State, p: nat)
    requires Inv(n, s) && s.fim && p < n
    ensures (exists ts :: Run(n, s, ts) && Eats(End(n, s, ts).phils[p].pc)) <==> n >= 2
  {
    hide MainInv, PhilInv, ForkInv, Run, End;
    if n >= 2 {
      var ts := MealWithinReach(n, s, p);
      assert Run(n, s, ts);
    } else {
      forall ts | Run(n, s, ts) ensures !Eats(End(n, s, ts).phils[p].pc) {
        RunKeepsInv(n, s, ts);
        NeighboursNeverEatTogether(n, End(n, s, ts), p);
      }
    }
  }

  lemma SleepingLasts(n: nat, s: State)
    requires Inv(n, s) && s.main.Sleep?
    ensures s.fim
  {}

  // ---------- a lockstep without meals ----------

  // Where everybody stands in turn when all move together: each takes its own fork, finds the right
  // one taken, and gives up.
  function Next(pc: Pc): Pc {
    match pc
    case Guard => TryOwn
    case TryOwn => TryRight
    case TryRight => Release
    case Release => Backoff
    case _ => Guard
  }

  // The first i have moved on from pc, the others have not.
  function At(pc: Pc, i: nat, j: nat): Pc {
    if j < i then Next(pc) else pc
  }

  function LockstepPhil(w: Philosopher, pc: Pc, i: nat, j: nat): Philosopher {
    w.(pc := At(pc, i, j), tentou := w.tentou + (if pc.Backoff? && j < i then 1 else 0))
  }

  function LockstepFork(pc: Pc, i: nat, j: nat): Fork {
    if HoldsOwn(At(pc, i, j)) then Held(j) else Free
  }

  function Lockstep(n: nat, s: State, pc: Pc, i: nat): (r: State)
    requires |s.phils| == n
    ensures Sized(n, r) && r == s.(phils := r.phils, forks := r.forks)
    ensures forall j :: 0 <= j < n ==> r.phils[j] == LockstepPhil(s.phils[j], pc, i, j)
    ensures forall j :: 0 <= j < n ==> r.forks[j] == LockstepFork(pc, i, j)
  {
    s.(phils := seq(n, j requires 0 <= j < n => LockstepPhil(s.phils[j], pc, i, j)),
       forks := seq(n, j requires 0 <= j < n => LockstepFork(pc, i, j)))
  }

  // The next one moves as the others did.
  lemma LockstepMove(n: nat, s: State, pc: Pc, i: nat)
    requires Sized(n, s) && s.fim && i < n
    requires pc in {Guard, TryOwn, TryRight, Release, Backoff}
    ensures var a := Lockstep(n, s, pc, i);
      Enabled(n, a, Phil(i)) && Apply(n, a, Phil(i)) == Lockstep(n, s, pc, i + 1)
  {
    var a, b := Lockstep(n, s, pc, i), Lockstep(n, s, pc, i + 1);
    assert a.phils[i].pc == pc && Right(n, i) < n;
    assert a.forks[i] == LockstepFork(pc, i, i);
    assert a.forks[Right(n, i)] == LockstepFork(pc, i, Right(n, i));
    hide Lockstep;
    var r := Apply(n, a, Phil(i));
    forall j | 0 <= j < n ensures r.phils[j] == b.phils[j] {}
    forall j | 0 <= j < n ensures r.forks[j] == b.forks[j] {}
    assert r.phils == b.phils && r.forks == b.forks;
  }

  // Everybody in turn, from philosopher i on.
  function Turns(n: nat, i: nat): (ts: seq<Thread>)
    requires i <= n
    ensures |ts| == n - i
    decreases n - i
  {
    if i == n then [] else [Phil(i)] + Turns(n, i + 1)
  }

  lemma {:induction false} Sweep(n: nat, s: State, pc: Pc, i: nat)
    requires Sized(n, s) && s.fim && i <= n
    requires pc in {Guard, TryOwn, TryRight, Release, Backoff}
    ensures Run(n, Lockstep(n, s, pc, i), Turns(n, i))
    ensures End(n, Lockstep(n, s, pc, i), Turns(n, i)) == Lockstep(n, s, pc, n)
    decreases n - i
  {
    if i < n {
      LockstepMove(n, s, pc, i);
      hide Lockstep, Apply, Enabled;
      Sweep(n, s, pc, i + 1);
      assert Turns(n, i)[0] == Phil(i) && Turns(n, i)[1..] == Turns(n, i + 1);
    }
  }

  // All moved: the head of the next sweep.
  lemma SweepsMeet(n: nat, s: State, pc: Pc)
    requires Sized(n, s) && pc in {Guard, TryOwn, TryRight, Release}
    ensures Lockstep(n, s, pc, n) == Lockstep(n, s, Next(pc), 0)
  {
    assert Lockstep(n, s, pc, n).phils == Lockstep(n, s, Next(pc), 0).phils;
    assert Lockstep(n, s, pc, n).forks == Lockstep(n, s, Next(pc), 0).forks;
  }

  // Everybody waits at the head of its loop.
  predicate AllAtGuard(n: nat, s: State) {
    && Sized(n, s) && s.fim
    && (forall p :: 0 <= p < n ==> s.phils[p].pc.Guard?)
    && (forall f :: 0 <= f < n ==> s.forks[f].Free?)
  }

  // A round later: everybody back, one attempt on.
  predicate LockstepEnd(n: nat, s: State, e: State)
    requires Sized(n, s)
  {
    && AllAtGuard(n, e) && e.main == s.main
    && forall p :: 0 <= p < n ==> e.phils[p] == s.phils[p].(tentou := s.phils[p].tentou + 1)
  }

  // One round of the lockstep: everybody takes five steps and is back where it was, hungry.
  lemma LockstepRound(n: nat, s: State) returns (ts: seq<Thread>)
    requires AllAtGuard(n, s)
    ensures Run(n, s, ts) && |ts| == 5 * n
    ensures var e := End(n, s, ts);
      LockstepEnd(n, s, e)
  {
    var u := Turns(n, 0);
    assert Lockstep(n, s, Guard, 0) == s by {
      assert Lockstep(n, s, Guard, 0).phils == s.phils;
      forall j | 0 <= j < n ensures Lockstep(n, s, Guard, 0).forks[j] == s.forks[j] {}
      assert Lockstep(n, s, Guard, 0).forks == s.forks;
    }
    Sweep(n, s, Guard, 0);
    Sweep(n, s, TryOwn, 0);
    Sweep(n, s, TryRight, 0);
    Sweep(n, s, Release, 0);
    Sweep(n, s, Backoff, 0);
    SweepsMeet(n, s, Guard);
    SweepsMeet(n, s, TryOwn);
    SweepsMeet(n, s, TryRight);
    SweepsMeet(n, s, Release);
    assert LockstepEnd(n, s, Lockstep(n, s, Backoff, n));
    hide Lockstep, Turns, Run, End;
    Append(n, s, u, u);
    Append(n, s, u + u, u);
    Append(n, s, u + u + u, u);
    Append(n, s, u + u + u + u, u);
    ts := u + u + u + u + u;
  }

  // The first q philosophers go to the heads of their loops.
  lemma {:induction false} Gather(n: nat, s: State, q: nat) returns (ts: seq<Thread>)
    requires Inv(n, s) && s.main.Sleep? && q <= n
    ensures Run(n, s, ts)
    ensures var e := End(n, s, ts);
      Inv(n, e) && e.main.Sleep? && forall p :: 0 <= p < q ==> e.phils[p].pc.Guard?
  {
    hide MainInv, PhilInv, ForkInv, Run, End;
    if q == 0 {
      ts := [];
      NoSteps(n, s);
    } else {
      var a := Gather(n, s, q - 1);
      var b := Drain(n, End(n, s, a), q - 1);
      Append(n, s, a, b);
      ts := a + b;
    }
  }

  // The lockstep can set in from every reachable state of the dinner.
  lemma LockstepWithinReach(n: nat, s: State) returns (ts: seq<Thread>)
    requires Inv(n, s) && s.fim
    ensures Run(n, s, ts) && AllAtGuard(n, End(n, s, ts))
  {
    hide MainInv, PhilInv, ForkInv, Run, End, AllAtGuard;
    var a := StartUp(n, s);
    var b := Gather(n, End(n, s, a), n);
    Append(n, s, a, b);
    ts := a + b;
    AllAtGuardForks(n, End(n, s, ts));
  }

  lemma AllAtGuardForks(n: nat, s: State)
    requires Inv(n, s) && s.main.Sleep? && forall p :: 0 <= p < n ==> s.phils[p].pc.Guard?
    ensures AllAtGuard(n, s)
  {
    forall f | 0 <= f < n ensures s.forks[f].Free? {
      RightAndLeft(n, f);
      ForksLieFree(n, s, f);
    }
  }

  // A meal is within reach but not promised, however fairly the steps are dealt out: for every k
  // there is a run in which each philosopher tries k times in vain and none of them eats.
  lemma {:induction false} NobodyNeedsToEat(n: nat, s: State, k: nat) returns (ts: seq<Thread>)
    requires AllAtGuard(n, s)
    ensures Run(n, s, ts) && |ts| == 5 * n * k
    ensures var e := End(n, s, ts);
      && AllAtGuard(n, e)
      && forall p :: 0 <= p < n ==> e.phils[p] == s.phils[p].(tentou := s.phils[p].tentou + k)
  {
    hide Run, End;
    if k == 0 {
      ts := [];
      NoSteps(n, s);
    } else {
      var a := NobodyNeedsToEat(n, s, k - 1);
      var b := LockstepRound(n, End(n, s, a));
      Append(n, s, a, b);
      ts := a + b;
      assert 5 * n * (k - 1) + 5 * n == 5 * n * k;
    }
  }

  lemma NoSteps(n: nat, s: State)
    requires Sized(n, s)
    ensures Run(n, s, []) && End(n, s, []) == s
  {}

  // ---------- after the dinner ----------

  // Steps a philosopher still takes once fim is off.
  function StepsLeft(pc: Pc): nat {
    match pc
    case Ended => 0
    case Guard => 1
    case Thinking => 2
    case Backoff => 2
    case Waiting => 2
    case PutRight => 3
    case Release => 3
    case PutOwn => 4
    case Eating => 5
    case TryRight => 6
    case TryOwn => 7
    case Absent => 0
  }

  function MainLeft(n: nat, m: Main): nat {
    match m
    case Join(i) => if i <= n then 2 * n + 3 - i else 0
    case Destroy(i) => if i <= n then n + 1 - i else 0
    case _ => 0
  }

  function ToEnd(n: nat, s: State): nat {
    Total(s.phils, StepsLeft) + MainLeft(n, s.main)
  }

  // Once fim is off, every step of any thread comes closer to the end...
  lemma EveryStepEnds(n: nat, s: State, t: Thread)
    requires Inv(n, s) && !s.fim && Enabled(n, s, t)
    ensures !Apply(n, s, t).fim && ToEnd(n, Apply(n, s, t)) < ToEnd(n, s)
  {
    hide PhilInv, ForkInv, Total;
    match t
    case MainThread =>
    case Phil(p) =>
      PhilEffect(n, s, p);
      var r := PhilStep(n, s, p);
      assert StepsLeft(r.phils[p].pc) < StepsLeft(s.phils[p].pc);
      hide PhilStep, MainInv, Enabled, StepsLeft;
      TotalUpdate(s.phils, StepsLeft, p, r.phils[p]);
  }

  // ...so that no run goes on for longer than that.
  lemma {:induction false} DinnerEnds(n: nat, s: State, ts: seq<Thread>)
    requires Inv(n, s) && !s.fim && Run(n, s, ts)
    ensures |ts| + ToEnd(n, End(n, s, ts)) <= ToEnd(n, s)
    decreases |ts|
  {
    if ts != [] {
      hide Inv, Enabled, Apply, ToEnd;
      EveryStepEnds(n, s, ts[0]);
      StepKeepsInv(n, s, ts[0]);
      DinnerEnds(n, Apply(n, s, ts[0]), ts[1..]);
    }
  }

  // And no state but the last is stuck, during the dinner or after it.
  lemma NeverStuck(n: nat, s: State) returns (t: Thread)
    requires Inv(n, s) && !s.main.Finished?
    ensures Enabled(n, s, t)
  {
    if s.main.Join? && s.main.i < n && !s.phils[s.main.i].pc.Ended? {
      t := Phil(s.main.i);
      if s.phils[s.main.i].pc.Waiting? {
        TotalAtMost(s.phils, PassedOne);
        assert PassedOne(s.phils[s.main.i].pc) == 0;
      }
    } else {
      t := MainThread;
    }
  }
}
