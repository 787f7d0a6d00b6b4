// Every step of the dinner keeps the invariant, and what the invariant says about the philosophers.
module PhilosophersProof {
  import opened Philosophers

  // ---------- totals ----------

  lemma {:induction false} TotalUpdate(ws: seq<Philosopher>, weight: Pc -> nat, p: nat, w: Philosopher)
    requires p < |ws|
    ensures Total(ws[p := w], weight) + weight(ws[p].pc) == Total(ws, weight) + weight(w.pc)
  {
    var last := |ws| - 1;
    if p == last {
      assert ws[p := w][..last] == ws[..last];
    } else {
      assert ws[p := w][..last] == ws[..last][p := w];
      TotalUpdate(ws[..last], weight, p, w);
    }
  }

  lemma {:induction false} TotalAtLeast(ws: seq<Philosopher>, weight: Pc -> nat, p: nat)
    requires p < |ws|
    ensures Total(ws, weight) >= weight(ws[p].pc)
  {
    if p < |ws| - 1 {
      TotalAtLeast(ws[..|ws| - 1], weight, p);
    }
  }

  // Where no weight is above one, a member without weight keeps the total below the number.
  lemma {:induction false} TotalAtMost(ws: seq<Philosopher>, weight: Pc -> nat)
    requires forall p :: 0 <= p < |ws| ==> weight(ws[p].pc) <= 1
    ensures Total(ws, weight) <= |ws|
    ensures forall p :: 0 <= p < |ws| && weight(ws[p].pc) == 0 ==> Total(ws, weight) < |ws|
  {
    if ws != [] {
      var front := ws[..|ws| - 1];
      TotalAtMost(front, weight);
      forall p | 0 <= p < |ws| && weight(ws[p].pc) == 0
        ensures Total(ws, weight) < |ws|
      {
        if p < |ws| - 1 {
          assert weight(front[p].pc) == 0;
        }
      }
    }
  }

  lemma {:induction false} TotalOfNothing(ws: seq<Philosopher>, weight: Pc -> nat)
    requires forall p :: 0 <= p < |ws| ==> weight(ws[p].pc) == 0
    ensures Total(ws, weight) == 0
  {
    if ws != [] {
      TotalOfNothing(ws[..|ws| - 1], weight);
    }
  }

  // ---------- the invariant is kept ----------

  lemma InitHolds(n: nat, s: State)
    requires n >= 1 && Initial(n, s)
    ensures Inv(n, s)
  {
    TotalOfNothing(s.phils, PassedOne);
  }

  // Nobody is at the table before every fork is there.
  lemma TableIsLaid(n: nat, s: State, p: nat)
    requires Sized(n, s) && MainInv(n, s) && p < n && AtTable(s.phils[p].pc)
    ensures s.filled == n && !s.main.Create? && !s.main.Fill?
  {
    TotalAtLeast(s.phils, PassedOne, p);
  }

  // The step t is a try of p, seen before it: at a fork, its own or the right one...
  predicate TriesOwn(s: State, t: Thread, p: nat)
    requires p < |s.phils|
  {
    t == Phil(p) && s.phils[p].pc.TryOwn?
  }

  predicate TriesRight(s: State, t: Thread, p: nat)
    requires p < |s.phils|
  {
    t == Phil(p) && s.phils[p].pc.TryRight?
  }

  // ...which is held,
  predicate FailedTry(n: nat, s: State, t: Thread, p: nat)
    requires Sized(n, s) && p < n
  {
    || (TriesOwn(s, t, p) && s.forks[p].Held?)
    || (TriesRight(s, t, p) && s.forks[(p + 1) % n].Held?)
  }

  // or at the right one, which is free: it has both.
  predicate TakesBoth(n: nat, s: State, t: Thread, p: nat)
    requires Sized(n, s) && p < n
  {
    TriesRight(s, t, p) && s.forks[(p + 1) % n].Free?
  }

  // Attempts that failed, and meals begun, with those that the report has yet to count.
  function Attempts(w: Philosopher): nat {
    w.tentou + (if w.pc.Release? || w.pc.Backoff? then 1 else 0)
  }

  function Meals(w: Philosopher): nat {
    w.comeu + (if w.pc.Eating? then 1 else 0)
  }

  // What a step of a philosopher touches: its own record, forks, and the semaphore as it passes it. The
  // record counts a failed try and a meal, and nothing else.
  lemma PhilEffect(n: nat, s: State, p: nat)
    requires Sized(n, s) && Enabled(n, s, Phil(p))
    ensures var r := PhilStep(n, s, p);
      && r == s.(liberador := r.liberador, forks := r.forks, phils := s.phils[p := r.phils[p]])
      && r.liberador + PassedOne(r.phils[p].pc) == s.liberador + PassedOne(s.phils[p].pc)
      && !s.phils[p].pc.Absent? && !r.phils[p].pc.Absent? && !s.phils[p].pc.Ended?
      && Attempts(r.phils[p]) == Attempts(s.phils[p]) + (if FailedTry(n, s, Phil(p), p) then 1 else 0)
      && Meals(r.phils[p]) == Meals(s.phils[p]) + (if TakesBoth(n, s, Phil(p), p) then 1 else 0)
  {
    RightIsModulo(n, p);
  }

  lemma PhilKeepsMain(n: nat, s: State, p: nat)
    requires Inv(n, s) && Enabled(n, s, Phil(p))
    ensures MainInv(n, PhilStep(n, s, p))
  {
    hide ForkInv, PhilInv;
    PhilEffect(n, s, p);
    hide PhilStep, Total, Enabled, PassedOne;
    TotalUpdate(s.phils, PassedOne, p, PhilStep(n, s, p).phils[p]);
  }

  lemma PhilKeepsPhil(n: nat, s: State, p: nat, q: nat)
    requires Inv(n, s) && Enabled(n, s, Phil(p)) && q < n
    ensures PhilInv(PhilStep(n, s, p), q)
  {
    hide ForkInv, Total;
    assert PhilInv(s, p) && PhilInv(s, q);
    if AtTable(s.phils[p].pc) {
      TableIsLaid(n, s, p);
    }
  }

  lemma RightAndLeft(n: nat, p: nat)
    requires p < n
    ensures Right(n, p) < n && Left(n, p) < n
    ensures Left(n, Right(n, p)) == p && Right(n, Left(n, p)) == p
    ensures n >= 2 ==> Right(n, p) != p
  {}

  // A step of p is seen by the forks it reaches, its own...
  lemma PhilKeepsOwn(n: nat, s: State, p: nat)
    requires Inv(n, s) && Enabled(n, s, Phil(p))
    ensures ForkInv(n, PhilStep(n, s, p), p)
  {
    hide MainInv, PhilInv;
    RightAndLeft(n, p);
    assert ForkInv(n, s, p) && ForkInv(n, s, Right(n, p));
  }

  // ...and the right one,
  lemma PhilKeepsRight(n: nat, s: State, p: nat)
    requires Inv(n, s) && Enabled(n, s, Phil(p)) && Right(n, p) != p
    ensures ForkInv(n, PhilStep(n, s, p), Right(n, p))
  {
    hide MainInv, PhilInv;
    RightAndLeft(n, p);
    assert ForkInv(n, s, p) && ForkInv(n, s, Right(n, p));
  }

  // and by no other.
  lemma PhilKeepsFork(n: nat, s: State, p: nat, f: nat)
    requires Inv(n, s) && Enabled(n, s, Phil(p)) && f < n
    ensures ForkInv(n, PhilStep(n, s, p), f)
  {
    hide MainInv, PhilInv;
    RightAndLeft(n, p);
    RightAndLeft(n, f);
    assert ForkInv(n, s, f);
    if f == p {
      PhilKeepsOwn(n, s, p);
    } else if f == Right(n, p) {
      PhilKeepsRight(n, s, p);
    }
  }

  lemma MainKeepsMain(n: nat, s: State)
    requires Inv(n, s) && Enabled(n, s, MainThread)
    ensures MainInv(n, MainStep(n, s))
  {
    hide ForkInv;
    var r := MainStep(n, s);
    match s.main
    case Create(i) => TotalUpdate(s.phils, PassedOne, i, r.phils[i]);
    case Fill(i) => TotalUpdate(s.phils, PassedOne, i, r.phils[i]);
    case _ =>
  }

  lemma MainKeepsPhil(n: nat, s: State, q: nat)
    requires Inv(n, s) && Enabled(n, s, MainThread) && q < n
    ensures PhilInv(MainStep(n, s), q)
  {
    hide ForkInv, Total;
    assert PhilInv(s, q);
    if AtTable(s.phils[q].pc) {
      TableIsLaid(n, s, q);
    }
  }

  lemma MainKeepsFork(n: nat, s: State, f: nat)
    requires Inv(n, s) && Enabled(n, s, MainThread) && f < n
    ensures ForkInv(n, MainStep(n, s), f)
  {
    hide Total;
    assert ForkInv(n, s, f);
  }

  lemma StepKeepsInv(n: nat, s: State, t: Thread)
    requires Inv(n, s) && Enabled(n, s, t)
    ensures Inv(n, Apply(n, s, t))
  {
    hide MainInv, PhilInv, ForkInv, MainStep, PhilStep;
    match t
    case MainThread =>
      MainKeepsMain(n, s);
      forall q | 0 <= q < n ensures PhilInv(MainStep(n, s), q) { MainKeepsPhil(n, s, q); }
      forall f | 0 <= f < n ensures ForkInv(n, MainStep(n, s), f) { MainKeepsFork(n, s, f); }
    case Phil(p) =>
      PhilKeepsMain(n, s, p);
      forall q | 0 <= q < n ensures PhilInv(PhilStep(n, s, p), q) { PhilKeepsPhil(n, s, p, q); }
      forall f | 0 <= f < n ensures ForkInv(n, PhilStep(n, s, p), f) { PhilKeepsFork(n, s, p, f); }
  }

  // ---------- what holds in every state ----------

  // A fork is free exactly when nobody holds it, and otherwise its holder is the only one.
  lemma ForksHaveOneHolder(n: nat, s: State, f: nat, p: nat)
    requires Inv(n, s) && f < n && p < n
    ensures Holds(n, s, p, f) <==> s.forks[f] == Held(p)
  {
    assert ForkInv(n, s, f);
    RightAndLeft(n, f);
    RightAndLeft(n, p);
  }

  // Two neighbours never eat at once; a philosopher alone at the table never eats.
  lemma NeighboursNeverEatTogether(n: nat, s: State, p: nat)
    requires Inv(n, s) && p < n
    ensures Right(n, p) == (p + 1) % n
    ensures !(Eats(s.phils[p].pc) && Eats(s.phils[Right(n, p)].pc))
    ensures n == 1 ==> !Eats(s.phils[p].pc)
  {
    RightIsModulo(n, p);
    RightAndLeft(n, p);
    assert ForkInv(n, s, Right(n, p));
  }

  ghost function Eaters(n: nat, s: State): set<nat>
    requires Sized(n, s)
  {
    set p: nat | p < n && Eats(s.phils[p].pc)
  }

  ghost function Rights(n: nat, e: set<nat>): set<nat> {
    set p | p in e :: Right(n, p)
  }

  lemma {:induction false} RightsAreAsMany(n: nat, e: set<nat>)
    requires forall p :: p in e ==> p < n
    ensures |Rights(n, e)| == |e|
  {
    if e != {} {
      var p :| p in e;
      var rest := e - {p};
      RightsAreAsMany(n, rest);
      assert Rights(n, e) == Rights(n, rest) + {Right(n, p)};
      assert Right(n, p) !in Rights(n, rest);
    } else {
      assert Rights(n, e) == {};
    }
  }

  // All n philosophers.
  ghost function Everyone(n: nat): (all: set<nat>)
    ensures |all| == n && forall p :: p in all <==> 0 <= p < n
  {
    if n == 0 then {} else Everyone(n - 1) + {n - 1}
  }

  lemma SubsetIsNoLarger(a: set<nat>, b: set<nat>)
    requires a <= b
    ensures |a| <= |b|
  {
    assert b == a + (b - a);
  }

  // At most half of the philosophers eat at once.
  lemma AtMostHalfEat(n: nat, s: State)
    requires Inv(n, s)
    ensures 2 * |Eaters(n, s)| <= n
  {
    hide MainInv, PhilInv, ForkInv;
    var e := Eaters(n, s);
    var all := Everyone(n);
    RightsAreAsMany(n, e);
    assert e !! Rights(n, e) by {
      forall p | p in e ensures Right(n, p) !in e { NeighboursNeverEatTogether(n, s, p); }
    }
    SubsetIsNoLarger(e + Rights(n, e), all);
  }

  // No fork is touched before all n philosophers and forks are there, nor after one is destroyed.
  lemma ForksAreThereWhenTouched(n: nat, s: State, p: nat)
    requires Inv(n, s) && p < n && AtTable(s.phils[p].pc)
    ensures s.filled == n
    ensures !s.phils[p].pc.Ended? ==> s.destroyed == 0 && !s.main.Destroy? && !s.main.Finished?
  {
    TableIsLaid(n, s, p);
  }

  lemma UntouchedBeforeTheFeast(n: nat, s: State, f: nat)
    requires Inv(n, s) && f < n && s.filled < n
    ensures s.forks[f].Free?
  {
    assert ForkInv(n, s, f);
    if HoldsOwn(s.phils[f].pc) { TableIsLaid(n, s, f); }
    if HoldsRight(s.phils[Left(n, f)].pc) { TableIsLaid(n, s, Left(n, f)); }
  }

  // The report: meals and thoughts differ by at most one, and agree outside the meal.
  lemma MealsAndThoughts(n: nat, s: State, p: nat)
    requires Inv(n, s) && p < s.filled
    ensures 0 <= s.phils[p].comeu - s.phils[p].pensou <= 1
    ensures s.phils[p].comeu == s.phils[p].pensou + 1 <==> Owes(s.phils[p].pc)
  {
    assert s.filled <= n;
    assert PhilInv(s, p);
  }

  // When the forks are destroyed, nobody holds one, and every meal has been thought about.
  lemma EndOfTheDinner(n: nat, s: State, p: nat)
    requires Inv(n, s) && p < n && (s.main.Destroy? || s.main.Finished?)
    ensures s.forks[p].Free? && s.phils[p].pc.Ended? && s.phils[p].comeu == s.phils[p].pensou
  {
    RightAndLeft(n, p);
    assert s.phils[p].pc.Ended? && s.phils[Left(n, p)].pc.Ended?;
    assert ForkInv(n, s, p) && PhilInv(s, p);
  }
}
