// Response times under the polling server (STR/ps.c): which periodic tasks use up their
// whole budget before every next release, whatever the aperiodic tasks do.
module PollingAnalysis {
  import opened PollingSpec

  // x / p rounded up.
  function Ceil(x: nat, p: nat): (r: nat)
    requires p >= 1
  {
    if x == 0 then 0 else if x <= p then 1 else 1 + Ceil(x - p, p)
  }

  lemma {:induction false} CeilIsDivision(x: nat, p: nat)
    requires p >= 1
    ensures Ceil(x, p) == (x + p - 1) / p
  {
    if x > p {
      CeilIsDivision(x - p, p);
      DivStep(x + p - 1, p);
    } else if x > 0 {
      DivStep(x + p - 1, p);
      SmallDiv(x - 1, p);
    } else {
      SmallDiv(p - 1, p);
    }
  }

  lemma AtLeastOnce(d: int, p: nat)
    requires d >= 1
    ensures d * p >= p
  {
    assert d * p == (d - 1) * p + p;
    assert (d - 1) * p >= 0;
  }

  // Quotient and remainder are unique.
  lemma DivUnique(y: nat, p: nat, q: int, r: nat)
    requires p >= 1 && y == q * p + r && r < p
    ensures y / p == q && y % p == r
  {
    var q', r' := y / p, y % p;
    assert y == q' * p + r' && r' < p;
    assert (q - q') * p == r' - r && (q' - q) * p == r - r';
    if q > q' {
      AtLeastOnce(q - q', p);
    } else if q < q' {
      AtLeastOnce(q' - q, p);
    }
  }

  lemma DivStep(y: nat, p: nat)
    requires p >= 1 && y >= p
    ensures y / p == (y - p) / p + 1 && y % p == (y - p) % p
  {
    var q, r := (y - p) / p, (y - p) % p;
    assert y - p == q * p + r;
    assert (q + 1) * p == q * p + p;
    DivUnique(y, p, q + 1, r);
  }

  lemma SmallDiv(y: nat, p: nat)
    requires y < p
    ensures y / p == 0
  {
  }

  // The multiples of p among s, s + 1, ..., e - 1: the releases, or the polling instants, of that stretch.
  function Multiples(p: nat, s: nat, e: nat): nat
    requires p >= 1
    decreases e
  {
    if e <= s then 0 else Multiples(p, s, e - 1) + (if (e - 1) % p == 0 then 1 else 0)
  }

  lemma {:induction false} MultiplesSplit(p: nat, s: nat, m: nat, e: nat)
    requires p >= 1 && s <= m <= e
    ensures Multiples(p, s, e) == Multiples(p, s, m) + Multiples(p, m, e)
  {
    if m < e {
      MultiplesSplit(p, s, m, e - 1);
    }
  }

  lemma TwoMultiples(p: nat, x: nat, y: nat)
    requires p >= 1 && x < y && x % p == 0 && y % p == 0
    ensures y - x >= p
  {
    var q := x / p;
    assert x == q * p + 0;
    if y - x < p {
      DivUnique(y, p, q, y - x);
    }
  }

  // Fewer than p + 1 consecutive ticks hold at most one multiple of p.
  lemma {:induction false} AtMostOneMultiple(p: nat, s: nat, e: nat)
    requires p >= 1 && s <= e <= s + p
    ensures Multiples(p, s, e) <= 1
    ensures Multiples(p, s, e) == 1 ==> exists x :: s <= x < e && x % p == 0
  {
    if s < e {
      AtMostOneMultiple(p, s, e - 1);
      if Multiples(p, s, e - 1) == 1 && (e - 1) % p == 0 {
        var x :| s <= x < e - 1 && x % p == 0;
        TwoMultiples(p, x, e - 1);
      }
    }
  }

  lemma {:induction false} MultiplesBound(p: nat, s: nat, e: nat)
    requires p >= 1 && s <= e
    ensures Multiples(p, s, e) <= Ceil(e - s, p)
    decreases e - s
  {
    if e - s > p {
      MultiplesSplit(p, s, s + p, e);
      AtMostOneMultiple(p, s, s + p);
      MultiplesBound(p, s + p, e);
    } else if s < e {
      AtMostOneMultiple(p, s, e);
    }
  }

  // From time 0 the bound is reached.
  lemma {:induction false} MultiplesFromZero(p: nat, e: nat)
    requires p >= 1
    ensures Multiples(p, 0, e) == Ceil(e, p)
  {
    if e > 0 {
      MultiplesFromZero(p, e - 1);
      CeilStep(e - 1, p);
    }
  }

  lemma {:induction false} CeilStep(x: nat, p: nat)
    requires p >= 1
    ensures Ceil(x + 1, p) == Ceil(x, p) + if x % p == 0 then 1 else 0
  {
    if x > p {
      CeilStep(x - p, p);
      DivStep(x, p);
    } else if 0 < x < p {
      assert x % p == x;
    }
  }

  // ---------- demand ----------

  // What the periodic tasks 0..n can ask of r ticks that start with all of them released.
  function PeriodicDemand(jobs: seq<Job>, n: nat, r: nat): nat
    requires Periods(jobs) && n <= |jobs|
  {
    if n == 0 then 0
    else PeriodicDemand(jobs, n - 1, r) + (if jobs[n - 1].aperiodic then 0 else jobs[n - 1].c * Ceil(r, jobs[n - 1].p))
  }

  // The same with the polling instants, which an aperiodic task may take.
  function Demand(jobs: seq<Job>, pps: nat, i: nat, r: nat): nat
    requires Periods(jobs) && i < |jobs| && pps >= 1
  {
    PeriodicDemand(jobs, i + 1, r) + Ceil(r, pps)
  }

  // The budgets of the periodic tasks 0..n.
  function Pending(jobs: seq<Job>, b: seq<nat>, n: nat): nat
    requires |b| == |jobs| && n <= |jobs|
  {
    if n == 0 then 0 else Pending(jobs, b, n - 1) + (if jobs[n - 1].aperiodic then 0 else b[n - 1])
  }

  // The ticks of s..e that the periodic tasks 0..n get.
  function Work(jobs: seq<Job>, n: nat, s: nat, e: nat): nat
    requires Periods(jobs) && n <= |jobs|
  {
    if n == 0 then 0 else Work(jobs, n - 1, s, e) + (if jobs[n - 1].aperiodic then 0 else Slots(jobs, n - 1, s, e))
  }

  // Nothing is carried into tick t: what is left of a budget is replaced at t.
  ghost predicate FreshStart(jobs: seq<Job>, n: nat, t: nat)
    requires Periods(jobs) && n <= |jobs|
  {
    forall j :: 0 <= j < n && !jobs[j].aperiodic ==> BudgetsAt(jobs, t)[j] == 0 || Releases(jobs[j], t)
  }

  // What n releases of c grant.
  function Granted(c: nat, n: nat): nat {
    c * n
  }

  // From a fresh start, what a task got and what it still has is at most what its releases granted.
  lemma GrantsBound(jobs: seq<Job>, pps: nat, j: nat, s: nat, e: nat)
    requires TaskSet(jobs, pps) && j < |jobs| && !jobs[j].aperiodic && s < e
    requires BudgetsAt(jobs, s)[j] == 0 || Releases(jobs[j], s)
    ensures Slots(jobs, j, s, e) + BudgetsAt(jobs, e)[j] <= jobs[j].c * Multiples(jobs[j].p, s, e)
  {
    hide BudgetsAt, Slots, Multiples;
    GrantedBound(jobs, pps, j, s, e);
  }

  lemma {:induction false} GrantedBound(jobs: seq<Job>, pps: nat, j: nat, s: nat, e: nat)
    requires TaskSet(jobs, pps) && j < |jobs| && !jobs[j].aperiodic && s < e
    requires BudgetsAt(jobs, s)[j] == 0 || Releases(jobs[j], s)
    ensures Slots(jobs, j, s, e) + BudgetsAt(jobs, e)[j] <= Granted(jobs[j].c, Multiples(jobs[j].p, s, e))
  {
    assert Periods(jobs) && jobs[j].p >= 1;
    hide BudgetsAt, ReadyAt, PickAt, Slots, Multiples, Granted;
    BudgetStep(jobs, j, e - 1);
    SlotsStep(jobs, j, s, e);
    ReleaseIsMultiple(jobs, pps, j, s, e);
    hide TaskSet, Releases;
    var slots := Slots(jobs, j, s, e - 1);
    var m, now := Multiples(jobs[j].p, s, e - 1), Multiples(jobs[j].p, s, e);
    if s + 1 < e {
      GrantedBound(jobs, pps, j, s, e - 1);
    } else {
      assert slots == m == 0;
    }
    GrantOne(slots, BudgetsAt(jobs, e - 1)[j], ReadyAt(jobs, e - 1)[j], jobs[j].c, m, now);
  }

  // A tick keeps the bound: it grants one more budget at most.
  lemma GrantOne(slots: nat, budget: nat, ready: nat, c: nat, m: nat, now: nat)
    requires slots + budget <= Granted(c, m) || (slots == 0 && m == 0 && (budget == 0 || (ready == c && now == 1)))
    requires (now == m && ready == budget) || (now == m + 1 && (ready == c || ready == budget))
    ensures slots + ready <= Granted(c, now)
  {
    assert c * (m + 1) == c * m + c;
  }

  // A periodic task is released at multiples of its period only.
  lemma ReleaseIsMultiple(jobs: seq<Job>, pps: nat, j: nat, s: nat, e: nat)
    requires TaskSet(jobs, pps) && j < |jobs| && !jobs[j].aperiodic && jobs[j].p >= 1 && s < e
    ensures var m, now := Multiples(jobs[j].p, s, e - 1), Multiples(jobs[j].p, s, e);
      now == if Releases(jobs[j], e - 1) then m + 1 else m
    ensures Multiples(jobs[j].p, s, s) == 0
  {
    hide Before;
  }

  lemma {:induction false} AllGrantsBound(jobs: seq<Job>, pps: nat, n: nat, s: nat, e: nat)
    requires TaskSet(jobs, pps) && n <= |jobs| && s < e && FreshStart(jobs, n, s)
    ensures Work(jobs, n, s, e) + Pending(jobs, BudgetsAt(jobs, e), n) <= PeriodicDemand(jobs, n, e - s)
  {
    hide BudgetsAt, Slots, Releases;
    if n > 0 {
      AllGrantsBound(jobs, pps, n - 1, s, e);
      var j := n - 1;
      if !jobs[j].aperiodic {
        GrantsBound(jobs, pps, j, s, e);
        MultiplesBound(jobs[j].p, s, e);
        MulMono(jobs[j].c, Multiples(jobs[j].p, s, e), Ceil(e - s, jobs[j].p));
      }
    }
  }

  lemma MulMono(c: nat, x: nat, y: nat)
    requires x <= y
    ensures c * x <= c * y
  {
  }

  // While one of the periodic tasks 0..n has budget, a tick goes to one of them or polls.
  lemma BusyTick(jobs: seq<Job>, pps: nat, n: nat, t: nat)
    requires TaskSet(jobs, pps) && n <= |jobs|
    requires exists j :: 0 <= j < n && !jobs[j].aperiodic && ReadyAt(jobs, t)[j] > 0
    ensures var k := PickAt(jobs, t);
      k < |jobs| && if jobs[k].aperiodic then t % pps == 0 else k < n
  {
    hide ReadyAt;
    var b := ReadyAt(jobs, t);
    var j :| 0 <= j < n && !jobs[j].aperiodic && b[j] > 0;
    assert Eligible(jobs[j], b[j], t, Periodic);
  }

  // One more tick of work.
  lemma {:induction false} WorkStep(jobs: seq<Job>, n: nat, s: nat, e: nat)
    requires Periods(jobs) && n <= |jobs| && s <= e
    ensures var k := PickAt(jobs, e);
      Work(jobs, n, s, e + 1) == Work(jobs, n, s, e) + if k < n && !jobs[k].aperiodic then 1 else 0
  {
    hide PickAt;
    if n > 0 {
      WorkStep(jobs, n - 1, s, e);
    }
  }

  lemma {:induction false} NoWorkYet(jobs: seq<Job>, n: nat, s: nat)
    requires Periods(jobs) && n <= |jobs|
    ensures Work(jobs, n, s, s) == 0
  {
    if n > 0 {
      NoWorkYet(jobs, n - 1, s);
    }
  }

  lemma {:induction false} PendingPositive(jobs: seq<Job>, b: seq<nat>, n: nat)
    requires |b| == |jobs| && n <= |jobs|
    ensures Pending(jobs, b, n) > 0 <==> exists j :: 0 <= j < n && !jobs[j].aperiodic && b[j] > 0
  {
    if n > 0 {
      PendingPositive(jobs, b, n - 1);
    }
  }

  // A stretch at whose every tick something is left: all its ticks are work or polls.
  lemma {:induction false} BusyStretch(jobs: seq<Job>, pps: nat, n: nat, s: nat, e: nat)
    requires TaskSet(jobs, pps) && pps >= 1 && n <= |jobs| && s <= e
    requires forall x :: s < x <= e ==> Pending(jobs, BudgetsAt(jobs, x), n) > 0
    ensures e - s <= Work(jobs, n, s, e) + Multiples(pps, s, e)
  {
    hide BudgetsAt, ReadyAt, PickAt;
    if s == e {
      NoWorkYet(jobs, n, s);
    } else {
      BusyStretch(jobs, pps, n, s, e - 1);
      WorkStep(jobs, n, s, e - 1);
      assert Pending(jobs, BudgetsAt(jobs, e), n) > 0;
      PendingPositive(jobs, BudgetsAt(jobs, e), n);
      var j :| 0 <= j < n && !jobs[j].aperiodic && BudgetsAt(jobs, e)[j] > 0;
      BudgetStep(jobs, j, e - 1);
      BusyTick(jobs, pps, n, e - 1);
    }
  }

  // From a fresh start the tasks 0..i run dry within r ticks, if their demand fits in r ticks.
  lemma RunsDry(jobs: seq<Job>, pps: nat, i: nat, r: nat, s: nat) returns (x: nat)
    requires TaskSet(jobs, pps) && pps >= 1 && i < |jobs| && 1 <= r && Demand(jobs, pps, i, r) <= r
    requires FreshStart(jobs, i + 1, s)
    ensures s < x <= s + r && Pending(jobs, BudgetsAt(jobs, x), i + 1) == 0
  {
    hide BudgetsAt, FreshStart, Work, Pending, PeriodicDemand;
    if forall x :: s < x <= s + r ==> Pending(jobs, BudgetsAt(jobs, x), i + 1) > 0 {
      BusyStretch(jobs, pps, i + 1, s, s + r);
      AllGrantsBound(jobs, pps, i + 1, s, s + r);
      MultiplesBound(pps, s, s + r);
      assert false;
    }
    x :| s < x <= s + r && Pending(jobs, BudgetsAt(jobs, x), i + 1) == 0;
  }

  // Every tick lies less than r ticks after a fresh start and before an instant at which the tasks 0..i are dry.
  lemma {:induction false} DryInstants(jobs: seq<Job>, pps: nat, i: nat, r: nat, t: nat) returns (s: nat, x: nat)
    requires TaskSet(jobs, pps) && pps >= 1 && i < |jobs| && 1 <= r && Demand(jobs, pps, i, r) <= r
    ensures s <= t < x <= s + r
    ensures Pending(jobs, BudgetsAt(jobs, x), i + 1) == 0
  {
    hide BudgetsAt, Pending, Demand;
    if t == 0 {
      s := 0;
      x := RunsDry(jobs, pps, i, r, 0);
    } else {
      s, x := DryInstants(jobs, pps, i, r, t - 1);
      if x <= t {
        s := x;
        PendingPositive(jobs, BudgetsAt(jobs, x), i + 1);
        x := RunsDry(jobs, pps, i, r, s);
      }
    }
  }

  // Task i has used up the budget it was granted at s within r ticks, and until its next release.
  lemma ResponseTime(jobs: seq<Job>, pps: nat, i: nat, r: nat, s: nat)
    requires TaskSet(jobs, pps) && pps >= 1 && i < |jobs| && !jobs[i].aperiodic
    requires 1 <= r <= jobs[i].p && Demand(jobs, pps, i, r) <= r
    requires s % jobs[i].p == 0
    ensures forall t :: s + r <= t <= s + jobs[i].p ==> BudgetsAt(jobs, t)[i] == 0
  {
    hide BudgetsAt, Pending, Demand;
    var from, x := DryInstants(jobs, pps, i, r, s);
    PendingPositive(jobs, BudgetsAt(jobs, x), i + 1);
    assert BudgetsAt(jobs, x)[i] == 0;
    StaysDry(jobs, pps, i, s, x, s + jobs[i].p);
  }

  lemma {:induction false} StaysDry(jobs: seq<Job>, pps: nat, i: nat, s: nat, x: nat, e: nat)
    requires TaskSet(jobs, pps) && i < |jobs| && !jobs[i].aperiodic
    requires s % jobs[i].p == 0 && s < x <= e <= s + jobs[i].p && BudgetsAt(jobs, x)[i] == 0
    ensures forall t :: x <= t <= e ==> BudgetsAt(jobs, t)[i] == 0
  {
    hide BudgetsAt, ReadyAt, PickAt;
    if x < e {
      StaysDry(jobs, pps, i, s, x, e - 1);
      BudgetStep(jobs, i, e - 1);
      if (e - 1) % jobs[i].p == 0 {
        TwoMultiples(jobs[i].p, s, e - 1);
      }
    }
  }

  // ---------- the test is exact ----------

  // The test for task i: its demand fits in some stretch no longer than its period.
  ghost predicate Fits(jobs: seq<Job>, pps: nat, i: nat)
    requires Periods(jobs) && i < |jobs| && pps >= 1
  {
    exists r :: 1 <= r <= jobs[i].p && Demand(jobs, pps, i, r) <= r
  }

  // The aperiodic tasks of the set arriving when the load says, with the work it says.
  function WithLoad(jobs: seq<Job>, load: seq<(nat, nat)>): (r: seq<Job>)
    requires |load| == |jobs| && Periods(jobs)
    ensures |r| == |jobs| && Periods(r)
  {
    seq(|jobs|, k requires 0 <= k < |jobs| =>
      if jobs[k].aperiodic then jobs[k].(a := load[k].0, c := load[k].1) else jobs[k])
  }

  lemma LoadKeepsTheSet(jobs: seq<Job>, pps: nat, load: seq<(nat, nat)>)
    requires TaskSet(jobs, pps) && |load| == |jobs|
    ensures TaskSet(WithLoad(jobs, load), pps)
    ensures forall k :: 0 <= k < |jobs| && !jobs[k].aperiodic ==> WithLoad(jobs, load)[k] == jobs[k]
    ensures forall k :: 0 <= k < |jobs| && jobs[k].aperiodic ==> WithLoad(jobs, load)[k].aperiodic
  {
  }

  // The demand of the periodic tasks does not depend on the load.
  lemma {:induction false} LoadKeepsDemand(jobs: seq<Job>, pps: nat, load: seq<(nat, nat)>, n: nat, r: nat)
    requires TaskSet(jobs, pps) && |load| == |jobs| && n <= |jobs|
    requires TaskSet(WithLoad(jobs, load), pps)
    ensures PeriodicDemand(WithLoad(jobs, load), n, r) == PeriodicDemand(jobs, n, r)
  {
    if n > 0 {
      LoadKeepsDemand(jobs, pps, load, n - 1, r);
    }
  }

  // Task j has used up every budget before the next one is granted.
  ghost predicate NeverMisses(jobs: seq<Job>, j: nat)
    requires Periods(jobs) && j < |jobs|
  {
    forall s: nat :: s % jobs[j].p == 0 ==> BudgetsAt(jobs, s + jobs[j].p)[j] == 0
  }

  lemma FittingNeverMisses(jobs: seq<Job>, pps: nat, i: nat)
    requires TaskSet(jobs, pps) && pps >= 1 && i < |jobs| && !jobs[i].aperiodic && Fits(jobs, pps, i)
    ensures NeverMisses(jobs, i)
  {
    hide Demand, BudgetsAt;
    var r :| 1 <= r <= jobs[i].p && Demand(jobs, pps, i, r) <= r;
    forall s: nat | s % jobs[i].p == 0 ensures BudgetsAt(jobs, s + jobs[i].p)[i] == 0 {
      ResponseTime(jobs, pps, i, r, s);
    }
  }

  // Task j has nothing left at any of its releases before e but the first.
  ghost predicate DryAtReleases(jobs: seq<Job>, j: nat, e: nat)
    requires Periods(jobs) && j < |jobs| && jobs[j].p >= 1
  {
    forall t :: 0 < t < e && t % jobs[j].p == 0 ==> BudgetsAt(jobs, t)[j] == 0
  }

  lemma DryAtLast(jobs: seq<Job>, pps: nat, j: nat, e: nat)
    requires TaskSet(jobs, pps) && j < |jobs| && !jobs[j].aperiodic && Periods(jobs) && jobs[j].p >= 1
    requires 0 < e && DryAtReleases(jobs, j, e)
    ensures DryAtReleases(jobs, j, e - 1)
    ensures 1 < e && Releases(jobs[j], e - 1) ==> BudgetsAt(jobs, e - 1)[j] == 0
  {
    hide BudgetsAt, Before;
  }

  // Without a miss, what a task got and what it still has is exactly what its releases granted.
  lemma {:induction false} GrantsExact(jobs: seq<Job>, pps: nat, j: nat, e: nat)
    requires TaskSet(jobs, pps) && j < |jobs| && !jobs[j].aperiodic && 0 < e
    requires Periods(jobs) && jobs[j].p >= 1 && DryAtReleases(jobs, j, e)
    ensures Slots(jobs, j, 0, e) + BudgetsAt(jobs, e)[j] == jobs[j].c * Multiples(jobs[j].p, 0, e)
  {
    hide BudgetsAt, ReadyAt, PickAt, Slots, Multiples, DryAtReleases, TaskSet, Releases;
    BudgetStep(jobs, j, e - 1);
    SlotsStep(jobs, j, 0, e);
    ReleaseIsMultiple(jobs, pps, j, 0, e);
    DryAtLast(jobs, pps, j, e);
    var slots := Slots(jobs, j, 0, e - 1);
    var m, now := Multiples(jobs[j].p, 0, e - 1), Multiples(jobs[j].p, 0, e);
    if 1 < e {
      GrantsExact(jobs, pps, j, e - 1);
    } else {
      ReleasedAtZero(jobs, pps, j);
    }
    GrantExactly(slots, BudgetsAt(jobs, e - 1)[j], ReadyAt(jobs, e - 1)[j], jobs[j].c, m, now);
  }

  lemma ReleasedAtZero(jobs: seq<Job>, pps: nat, j: nat)
    requires TaskSet(jobs, pps) && j < |jobs| && !jobs[j].aperiodic && jobs[j].p >= 1
    ensures Releases(jobs[j], 0)
  {
    hide Before;
  }

  // A release that finds the budget used up grants exactly one more.
  lemma GrantExactly(slots: nat, budget: nat, ready: nat, c: nat, m: nat, now: nat)
    requires slots + budget == c * m || (slots == 0 && m == 0 && ready == c && now == 1)
    requires (now == m && ready == budget) || (now == m + 1 && ready == c && (budget == 0 || m == 0))
    ensures slots + ready == c * now
  {
    assert c * (m + 1) == c * m + c;
  }

  lemma {:induction false} AllGrantsExact(jobs: seq<Job>, pps: nat, n: nat, e: nat)
    requires TaskSet(jobs, pps) && n <= |jobs| && 0 < e
    requires forall j, t :: 0 <= j < n && !jobs[j].aperiodic && 0 < t < e && t % jobs[j].p == 0 ==> BudgetsAt(jobs, t)[j] == 0
    ensures Work(jobs, n, 0, e) + Pending(jobs, BudgetsAt(jobs, e), n) == PeriodicDemand(jobs, n, e)
  {
    hide BudgetsAt, Slots, Releases;
    if n > 0 {
      AllGrantsExact(jobs, pps, n - 1, e);
      if !jobs[n - 1].aperiodic {
        GrantsExact(jobs, pps, n - 1, e);
        MultiplesFromZero(jobs[n - 1].p, e);
      }
    }
  }

  // The greediest load: every aperiodic task arrives at 0 with work for every tick before the horizon.
  function Greedy(jobs: seq<Job>, horizon: nat): (load: seq<(nat, nat)>)
    ensures |load| == |jobs|
  {
    seq(|jobs|, k => (0, horizon))
  }

  lemma {:induction false} SlotsBound(jobs: seq<Job>, k: nat, e: nat)
    requires Periods(jobs)
    ensures Slots(jobs, k, 0, e) <= e
  {
    if e > 0 {
      SlotsBound(jobs, k, e - 1);
    }
  }

  // An aperiodic task with work left takes every polling instant away from the periodic ones.
  lemma PollIsTaken(jobs: seq<Job>, pps: nat, q: nat, t: nat)
    requires TaskSet(jobs, pps) && q < |jobs| && jobs[q].aperiodic && jobs[q].a == 0 && t < jobs[q].c && t % pps == 0
    ensures PickAt(jobs, t) < |jobs| && jobs[PickAt(jobs, t)].aperiodic
  {
    hide BudgetsAt, ReadyAt;
    AperiodicConservation(jobs, q, t);
    SlotsBound(jobs, q, t);
    BudgetStep(jobs, q, t);
    assert Eligible(jobs[q], ReadyAt(jobs, t)[q], t, Server);
  }

  lemma {:induction false} WorkAvoidsPolls(jobs: seq<Job>, pps: nat, q: nat, n: nat, e: nat)
    requires TaskSet(jobs, pps) && pps >= 1 && n <= |jobs|
    requires q < |jobs| && jobs[q].aperiodic && jobs[q].a == 0 && e <= jobs[q].c
    ensures Work(jobs, n, 0, e) + Multiples(pps, 0, e) <= e
  {
    hide PickAt;
    if e == 0 {
      NoWorkYet(jobs, n, 0);
    } else {
      WorkAvoidsPolls(jobs, pps, q, n, e - 1);
      WorkStep(jobs, n, 0, e - 1);
      if (e - 1) % pps == 0 {
        PollIsTaken(jobs, pps, q, e - 1);
      }
    }
  }

  // The last tick that task i gets before e.
  lemma {:induction false} LastSlot(jobs: seq<Job>, i: nat, e: nat) returns (x: nat)
    requires Periods(jobs) && Slots(jobs, i, 0, e) > 0
    ensures x < e && PickAt(jobs, x) == i && Slots(jobs, i, 0, x + 1) == Slots(jobs, i, 0, e)
  {
    hide PickAt;
    if PickAt(jobs, e - 1) == i {
      x := e - 1;
    } else {
      x := LastSlot(jobs, i, e - 1);
    }
  }

  // When task i gets a tick, no periodic task before it has anything left.
  lemma OthersDryWhenServed(jobs: seq<Job>, pps: nat, i: nat, x: nat)
    requires TaskSet(jobs, pps) && i < |jobs| && !jobs[i].aperiodic && PickAt(jobs, x) == i
    ensures forall j :: 0 <= j < i && !jobs[j].aperiodic ==> BudgetsAt(jobs, x + 1)[j] == 0
  {
    hide BudgetsAt, ReadyAt;
    var b := ReadyAt(jobs, x);
    forall j | 0 <= j < i && !jobs[j].aperiodic ensures BudgetsAt(jobs, x + 1)[j] == 0 {
      assert !Eligible(jobs[j], b[j], x, Periodic);
      BudgetStep(jobs, j, x);
    }
  }

  // If the tasks before i never miss but the demand of i does not fit, i misses under the greediest load.
  lemma UnfittingMisses(jobs: seq<Job>, pps: nat, i: nat, q: nat)
    requires TaskSet(jobs, pps) && pps >= 1 && i < |jobs| && !jobs[i].aperiodic && jobs[i].c >= 1
    requires q < |jobs| && jobs[q].aperiodic && jobs[q].a == 0 && jobs[i].p <= jobs[q].c
    requires forall j :: 0 <= j < i && !jobs[j].aperiodic ==> NeverMisses(jobs, j)
    requires !Fits(jobs, pps, i)
    ensures BudgetsAt(jobs, jobs[i].p)[i] != 0
  {
    hide BudgetsAt, PeriodicDemand, PickAt;
    var p := jobs[i].p;
    forall e | 1 <= e <= p ensures Pending(jobs, BudgetsAt(jobs, e), i + 1) > 0 {
      NoMissBefore(jobs, pps, i, e);
      AllGrantsExact(jobs, pps, i + 1, e);
      WorkAvoidsPolls(jobs, pps, q, i + 1, e);
      MultiplesFromZero(pps, e);
      assert Demand(jobs, pps, i, e) > e;
    }
    if BudgetsAt(jobs, p)[i] == 0 {
      OneGrant(jobs, i, p);
      var x := LastSlot(jobs, i, p);
      OneGrant(jobs, i, x + 1);
      OthersDryWhenServed(jobs, pps, i, x);
      PendingPositive(jobs, BudgetsAt(jobs, x + 1), i + 1);
    }
  }

  lemma OneGrant(jobs: seq<Job>, i: nat, e: nat)
    requires Periods(jobs) && i < |jobs| && !jobs[i].aperiodic && jobs[i].a == 0 && 0 < e <= jobs[i].p
    ensures Slots(jobs, i, 0, e) + BudgetsAt(jobs, e)[i] == jobs[i].c
  {
    hide BudgetsAt, Slots;
    forall t | 0 < t < e ensures !Releases(jobs[i], t) {
      if t % jobs[i].p == 0 {
        TwoMultiples(jobs[i].p, 0, t);
      }
    }
    PeriodicConservation(jobs, i, 0, e);
  }

  lemma NoMissBefore(jobs: seq<Job>, pps: nat, i: nat, e: nat)
    requires TaskSet(jobs, pps) && i < |jobs| && e <= jobs[i].p
    requires forall j :: 0 <= j < i && !jobs[j].aperiodic ==> NeverMisses(jobs, j)
    ensures forall j, t :: 0 <= j < i + 1 && !jobs[j].aperiodic && 0 < t < e && t % jobs[j].p == 0 ==> BudgetsAt(jobs, t)[j] == 0
  {
    hide BudgetsAt;
    forall j, t | 0 <= j < i + 1 && !jobs[j].aperiodic && 0 < t < e && t % jobs[j].p == 0
      ensures BudgetsAt(jobs, t)[j] == 0
    {
      TwoMultiples(jobs[j].p, 0, t);
      if j < i {
        assert NeverMisses(jobs, j);
        DivStep(t, jobs[j].p);
        assert t == (t - jobs[j].p) + jobs[j].p;
      }
    }
  }

  // Task j meets all its releases whenever the aperiodic tasks arrive and however much work they bring.
  ghost predicate SafeUnderEveryLoad(jobs: seq<Job>, j: nat)
    requires Periods(jobs) && j < |jobs|
  {
    forall load: seq<(nat, nat)> :: |load| == |jobs| ==> NeverMisses(WithLoad(jobs, load), j)
  }

  lemma FittingIsSafe(jobs: seq<Job>, pps: nat, j: nat)
    requires TaskSet(jobs, pps) && pps >= 1 && j < |jobs| && !jobs[j].aperiodic && Fits(jobs, pps, j)
    ensures SafeUnderEveryLoad(jobs, j)
  {
    hide NeverMisses, WithLoad;
    var r :| 1 <= r <= jobs[j].p && Demand(jobs, pps, j, r) <= r;
    forall load: seq<(nat, nat)> | |load| == |jobs| ensures NeverMisses(WithLoad(jobs, load), j) {
      LoadKeepsTheSet(jobs, pps, load);
      LoadKeepsDemand(jobs, pps, load, j + 1, r);
      assert Demand(WithLoad(jobs, load), pps, j, r) <= r;
      FittingNeverMisses(WithLoad(jobs, load), pps, j);
    }
  }

  lemma SafeTasksFit(jobs: seq<Job>, pps: nat, i: nat, q: nat)
    requires TaskSet(jobs, pps) && pps >= 1 && i < |jobs| && !jobs[i].aperiodic && jobs[i].c >= 1
    requires q < |jobs| && jobs[q].aperiodic
    requires forall j :: 0 <= j <= i && !jobs[j].aperiodic ==> SafeUnderEveryLoad(jobs, j)
    ensures Fits(jobs, pps, i)
  {
    var p := jobs[i].p;
    var load := Greedy(jobs, p);
    var worst := WithLoad(jobs, load);
    LoadKeepsTheSet(jobs, pps, load);
    assert worst[q].a == 0 && worst[q].c == p;
    hide NeverMisses, WithLoad, Demand;
    forall j | 0 <= j <= i && !worst[j].aperiodic ensures NeverMisses(worst, j) {
      assert SafeUnderEveryLoad(jobs, j);
    }
    MissesNothing(worst, i);
    if !Fits(worst, pps, i) {
      UnfittingMisses(worst, pps, i, q);
      assert false;
    }
    var r :| 1 <= r <= p && Demand(worst, pps, i, r) <= r;
    DemandUnderLoad(jobs, pps, load, i, r);
  }

  lemma MissesNothing(jobs: seq<Job>, i: nat)
    requires Periods(jobs) && i < |jobs| && NeverMisses(jobs, i)
    ensures BudgetsAt(jobs, jobs[i].p)[i] == 0
  {
    hide BudgetsAt;
    assert 0 % jobs[i].p == 0;
    assert BudgetsAt(jobs, 0 + jobs[i].p)[i] == 0;
  }

  lemma DemandUnderLoad(jobs: seq<Job>, pps: nat, load: seq<(nat, nat)>, i: nat, r: nat)
    requires TaskSet(jobs, pps) && pps >= 1 && |load| == |jobs| && i < |jobs|
    ensures Demand(WithLoad(jobs, load), pps, i, r) == Demand(jobs, pps, i, r)
  {
    LoadKeepsTheSet(jobs, pps, load);
    LoadKeepsDemand(jobs, pps, load, i + 1, r);
  }

  // A periodic task without computation time never has a budget.
  lemma {:induction false} NoBudget(jobs: seq<Job>, j: nat, t: nat)
    requires Periods(jobs) && j < |jobs| && jobs[j].c == 0
    ensures BudgetsAt(jobs, t)[j] == 0
  {
    hide BudgetsAt, ReadyAt, PickAt, Releases;
    if t > 0 {
      NoBudget(jobs, j, t - 1);
      BudgetStep(jobs, j, t - 1);
    } else {
      FirstBudget(jobs, j);
    }
  }

  lemma FirstBudget(jobs: seq<Job>, j: nat)
    requires Periods(jobs) && j < |jobs|
    ensures BudgetsAt(jobs, 0)[j] == if jobs[j].aperiodic then 0 else jobs[j].c
  {}

  lemma NothingToMiss(jobs: seq<Job>, pps: nat, j: nat)
    requires TaskSet(jobs, pps) && j < |jobs| && !jobs[j].aperiodic && jobs[j].c == 0
    ensures SafeUnderEveryLoad(jobs, j)
  {
    hide BudgetsAt, WithLoad;
    forall load: seq<(nat, nat)> | |load| == |jobs| ensures NeverMisses(WithLoad(jobs, load), j) {
      LoadKeepsTheSet(jobs, pps, load);
      forall s: nat | s % jobs[j].p == 0 ensures BudgetsAt(WithLoad(jobs, load), s + jobs[j].p)[j] == 0 {
        NoBudget(WithLoad(jobs, load), j, s + jobs[j].p);
      }
    }
  }

  // Task j, if it is periodic and computes at all, has a demand that fits.
  ghost predicate FitsIfAny(jobs: seq<Job>, pps: nat, j: nat)
    requires Periods(jobs) && j < |jobs| && pps >= 1
  {
    !jobs[j].aperiodic && jobs[j].c >= 1 ==> Fits(jobs, pps, j)
  }

  // The test is exact: the periodic tasks up to i meet every release under every load of the
  // server if and only if the demand of each of them that computes at all fits.
  lemma ExactTest(jobs: seq<Job>, pps: nat, i: nat)
    requires TaskSet(jobs, pps) && pps >= 1 && i < |jobs|
    requires exists q :: 0 <= q < |jobs| && jobs[q].aperiodic
    ensures (forall j :: 0 <= j <= i ==> FitsIfAny(jobs, pps, j))
       <==> (forall j :: 0 <= j <= i && !jobs[j].aperiodic ==> SafeUnderEveryLoad(jobs, j))
  {
    hide Fits, SafeUnderEveryLoad;
    var q :| 0 <= q < |jobs| && jobs[q].aperiodic;
    if forall j :: 0 <= j <= i ==> FitsIfAny(jobs, pps, j) {
      forall j | 0 <= j <= i && !jobs[j].aperiodic ensures SafeUnderEveryLoad(jobs, j) {
        if jobs[j].c == 0 {
          NothingToMiss(jobs, pps, j);
        } else {
          assert FitsIfAny(jobs, pps, j);
          FittingIsSafe(jobs, pps, j);
        }
      }
    }
    if forall j :: 0 <= j <= i && !jobs[j].aperiodic ==> SafeUnderEveryLoad(jobs, j) {
      forall j | 0 <= j <= i ensures FitsIfAny(jobs, pps, j) {
        if !jobs[j].aperiodic && jobs[j].c >= 1 {
          SafeTasksFit(jobs, pps, j, q);
        }
      }
    }
  }

  // ---------- a test in closed form ----------

  // What the periodic tasks 0..n can ask of p ticks, one release more than fits counted for each.
  function CarryInDemand(jobs: seq<Job>, n: nat, p: nat): nat
    requires Periods(jobs) && n <= |jobs|
  {
    if n == 0 then 0
    else CarryInDemand(jobs, n - 1, p) + (if jobs[n - 1].aperiodic then 0 else jobs[n - 1].c * (1 + Ceil(p, jobs[n - 1].p)))
  }

  lemma {:induction false} CarryInCoversDemand(jobs: seq<Job>, n: nat, p: nat)
    requires Periods(jobs) && n <= |jobs|
    ensures PeriodicDemand(jobs, n, p) <= CarryInDemand(jobs, n, p)
  {
    if n > 0 {
      CarryInCoversDemand(jobs, n - 1, p);
      MulMono(jobs[n - 1].c, Ceil(p, jobs[n - 1].p), 1 + Ceil(p, jobs[n - 1].p));
    }
  }

  // A task asks for its budget once within its own period.
  lemma OwnDemand(jobs: seq<Job>, pps: nat, i: nat)
    requires Periods(jobs) && i < |jobs| && !jobs[i].aperiodic && pps >= 1
    ensures jobs[i].p >= 1
    ensures var p := jobs[i].p;
      Demand(jobs, pps, i, p) == PeriodicDemand(jobs, i, p) + jobs[i].c + Ceil(p, pps)
  {
    assert Ceil(jobs[i].p, jobs[i].p) == 1;
    hide Ceil;
  }

  // The closed form is sufficient: one budget of i, the others with one release to spare, and the polls.
  lemma ClosedFormIsSafe(jobs: seq<Job>, pps: nat, i: nat)
    requires TaskSet(jobs, pps) && pps >= 1 && i < |jobs| && !jobs[i].aperiodic
    requires jobs[i].c + CarryInDemand(jobs, i, jobs[i].p) + Ceil(jobs[i].p, pps) <= jobs[i].p
    ensures SafeUnderEveryLoad(jobs, i)
  {
    hide SafeUnderEveryLoad, Ceil, CarryInDemand;
    var p := jobs[i].p;
    CarryInCoversDemand(jobs, i, p);
    OwnDemand(jobs, pps, i);
    hide Demand;
    assert Fits(jobs, pps, i);
    hide Fits;
    FittingIsSafe(jobs, pps, i);
  }

  // The closed form is not necessary: of two periodic tasks, 1 in 2 and 1 in 4, with polls every 100
  // ticks, the second one is safe although the closed form asks for five ticks of four.
  lemma ClosedFormIsNotNecessary(jobs: seq<Job>)
    requires jobs == [Job('A', 1, 2, 0, false), Job('B', 1, 4, 0, false), Job('C', 1, 100, 0, true)]
    ensures TaskSet(jobs, 100) && SafeUnderEveryLoad(jobs, 1)
    ensures jobs[1].c + CarryInDemand(jobs, 1, jobs[1].p) + Ceil(jobs[1].p, 100) > jobs[1].p
  {
    hide SafeUnderEveryLoad;
    assert Ceil(4, 2) == 2 && Ceil(4, 4) == 1 && Ceil(4, 100) == 1;
    assert PeriodicDemand(jobs, 0, 4) == 0 && CarryInDemand(jobs, 0, 4) == 0;
    assert PeriodicDemand(jobs, 1, 4) == 2 && CarryInDemand(jobs, 1, 4) == 3;
    assert PeriodicDemand(jobs, 2, 4) == 3;
    assert Demand(jobs, 100, 1, 4) <= 4;
    assert Fits(jobs, 100, 1);
    FittingIsSafe(jobs, 100, 1);
  }
}
