// The polling-server scheduler (STR/ps.c) as a function of time: which task every tick
// serves and what is left of every budget.
module PollingSpec {

  // What is fixed about a task: an aperiodic one carries the period of the server.
  datatype Job = Job(id: char, c: nat, p: nat, a: nat, aperiodic: bool)

  // Rate-monotonic priority: the smaller period, then the smaller id.
  predicate Before(x: Job, y: Job) {
    x.p < y.p || (x.p == y.p && x.id < y.id)
  }

  // A task set as the scheduler sees it, in priority order.
  ghost predicate TaskSet(jobs: seq<Job>, pps: nat) {
    && (forall k :: 0 <= k < |jobs| ==> jobs[k].p >= 1)
    && (forall k :: 0 <= k < |jobs| && jobs[k].aperiodic ==> jobs[k].p == pps)
    && (forall k :: 0 <= k < |jobs| && !jobs[k].aperiodic ==> jobs[k].a == 0)
    && (forall j, k :: 0 <= j < k < |jobs| ==> Before(jobs[j], jobs[k]))
  }

  // A new budget is granted: at every period, or once on arrival.
  predicate Releases(j: Job, t: nat)
    requires j.p >= 1
  {
    (!j.aperiodic && t % j.p == 0 && t != 0) || j.a == t
  }

  ghost predicate Periods(jobs: seq<Job>) {
    forall k :: 0 <= k < |jobs| ==> jobs[k].p >= 1
  }

  // The budgets after the releases of tick t.
  function Released(jobs: seq<Job>, b: seq<nat>, t: nat): (r: seq<nat>)
    requires |b| == |jobs| && Periods(jobs)
    ensures |r| == |b|
  {
    seq(|b|, k requires 0 <= k < |b| => if Releases(jobs[k], t) then jobs[k].c else b[k])
  }

  // The three ways a task may get a tick.
  datatype Turn = Server | Periodic | Background

  predicate Eligible(j: Job, budget: nat, t: nat, turn: Turn)
    requires j.p >= 1
  {
    budget > 0 && match turn
    case Server => j.aperiodic && j.a <= t && t % j.p == 0
    case Periodic => !j.aperiodic
    case Background => j.aperiodic && j.a <= t
  }

  // The first eligible task from k on; |jobs| if there is none.
  function First(jobs: seq<Job>, b: seq<nat>, t: nat, turn: Turn, k: nat): (r: nat)
    requires |b| == |jobs| && Periods(jobs) && k <= |jobs|
    ensures k <= r <= |jobs|
    ensures r < |jobs| ==> Eligible(jobs[r], b[r], t, turn)
    ensures forall q :: k <= q < r ==> !Eligible(jobs[q], b[q], t, turn)
    decreases |jobs| - k
  {
    if k == |jobs| || Eligible(jobs[k], b[k], t, turn) then k else First(jobs, b, t, turn, k + 1)
  }

  // Who gets tick t: an aperiodic task at a polling instant, else a periodic task, else an
  // aperiodic one in the background; |jobs| stands for idle.
  function Pick(jobs: seq<Job>, b: seq<nat>, t: nat): (r: nat)
    requires |b| == |jobs| && Periods(jobs)
    ensures r <= |jobs|
    ensures r < |jobs| ==> b[r] > 0
  {
    var s := First(jobs, b, t, Server, 0);
    var p := First(jobs, b, t, Periodic, 0);
    if s < |jobs| then s else if p < |jobs| then p else First(jobs, b, t, Background, 0)
  }

  // The budgets after tick t.
  function After(jobs: seq<Job>, b: seq<nat>, t: nat): (r: seq<nat>)
    requires |b| == |jobs| && Periods(jobs)
    ensures |r| == |jobs|
  {
    var r := Released(jobs, b, t);
    var k := Pick(jobs, r, t);
    if k < |jobs| then r[k := r[k] - 1] else r
  }

  // The budgets before tick t: a periodic task starts full, an aperiodic one empty.
  function BudgetsAt(jobs: seq<Job>, t: nat): (b: seq<nat>)
    requires Periods(jobs)
    ensures |b| == |jobs|
  {
    if t == 0 then seq(|jobs|, k requires 0 <= k < |jobs| => if jobs[k].aperiodic then 0 else jobs[k].c)
    else After(jobs, BudgetsAt(jobs, t - 1), t - 1)
  }

  // The budgets that tick t chooses from, and its choice.
  function ReadyAt(jobs: seq<Job>, t: nat): (b: seq<nat>)
    requires Periods(jobs)
    ensures |b| == |jobs|
  {
    Released(jobs, BudgetsAt(jobs, t), t)
  }

  function PickAt(jobs: seq<Job>, t: nat): (r: nat)
    requires Periods(jobs)
    ensures r <= |jobs|
  {
    Pick(jobs, ReadyAt(jobs, t), t)
  }

  const IDLE := '.'

  // The character that tick t writes.
  function Symbol(jobs: seq<Job>, t: nat): char
    requires Periods(jobs)
  {
    if PickAt(jobs, t) < |jobs| then jobs[PickAt(jobs, t)].id else IDLE
  }

  // The ticks of s..e that task k gets.
  function Slots(jobs: seq<Job>, k: nat, s: nat, e: nat): nat
    requires Periods(jobs)
    decreases e
  {
    if e <= s then 0 else Slots(jobs, k, s, e - 1) + (if PickAt(jobs, e - 1) == k then 1 else 0)
  }

  // ---------- the rule of a tick ----------

  // Who gets tick t. At a polling instant, an aperiodic task that has arrived, of least id; otherwise the
  // periodic task of least period, and of least id among those; otherwise an aperiodic task after all.
  lemma PickIsHighestPriority(jobs: seq<Job>, pps: nat, b: seq<nat>, t: nat)
    requires TaskSet(jobs, pps) && |b| == |jobs| && pps >= 1
    ensures var r := Pick(jobs, b, t);
      if t % pps == 0 && exists q :: 0 <= q < |jobs| && jobs[q].aperiodic && jobs[q].a <= t && b[q] > 0 then
        r < |jobs| && jobs[r].aperiodic && jobs[r].a <= t && b[r] > 0
        && forall q :: 0 <= q < |jobs| && jobs[q].aperiodic && jobs[q].a <= t && b[q] > 0 ==> jobs[r].id <= jobs[q].id
      else if exists q :: 0 <= q < |jobs| && !jobs[q].aperiodic && b[q] > 0 then
        r < |jobs| && !jobs[r].aperiodic && b[r] > 0
        && forall q :: 0 <= q < |jobs| && !jobs[q].aperiodic && b[q] > 0 ==>
             jobs[r].p < jobs[q].p || (jobs[r].p == jobs[q].p && jobs[r].id <= jobs[q].id)
      else if exists q :: 0 <= q < |jobs| && jobs[q].aperiodic && jobs[q].a <= t && b[q] > 0 then
        r < |jobs| && jobs[r].aperiodic && jobs[r].a <= t && b[r] > 0
        && forall q :: 0 <= q < |jobs| && jobs[q].aperiodic && jobs[q].a <= t && b[q] > 0 ==> jobs[r].id <= jobs[q].id
      else r == |jobs|
  {
    var r := Pick(jobs, b, t);
    assert forall q :: r < q < |jobs| ==> Before(jobs[r], jobs[q]);
    assert forall q :: 0 <= q < |jobs| && jobs[q].aperiodic && jobs[q].a <= t && b[q] > 0 ==>
      Eligible(jobs[q], b[q], t, Background) && (t % pps == 0 ==> Eligible(jobs[q], b[q], t, Server));
    assert forall q :: 0 <= q < |jobs| && !jobs[q].aperiodic && b[q] > 0 ==> Eligible(jobs[q], b[q], t, Periodic);
  }

  // A tick idles exactly when no task that has been released has budget left.
  lemma IdleExactlyWhenNothingIsPending(jobs: seq<Job>, b: seq<nat>, t: nat)
    requires Periods(jobs) && |b| == |jobs|
    ensures Pick(jobs, b, t) == |jobs|
       <==> forall q :: 0 <= q < |jobs| && (jobs[q].aperiodic ==> jobs[q].a <= t) ==> b[q] == 0
  {
    assert forall q :: 0 <= q < |jobs| && b[q] > 0 && (jobs[q].aperiodic ==> jobs[q].a <= t) ==>
      Eligible(jobs[q], b[q], t, Periodic) || Eligible(jobs[q], b[q], t, Background);
  }

  // ---------- budget conservation ----------

  // What one tick does to the budget of task k.
  lemma BudgetStep(jobs: seq<Job>, k: nat, t: nat)
    requires Periods(jobs) && k < |jobs|
    ensures ReadyAt(jobs, t)[k] == if Releases(jobs[k], t) then jobs[k].c else BudgetsAt(jobs, t)[k]
    ensures PickAt(jobs, t) == k ==> ReadyAt(jobs, t)[k] > 0
    ensures BudgetsAt(jobs, t + 1)[k] == ReadyAt(jobs, t)[k] - (if PickAt(jobs, t) == k then 1 else 0)
  {
  }

  // Between two releases every tick given to task k is taken from its budget.
  lemma {:induction false} SlotsComeFromTheBudget(jobs: seq<Job>, k: nat, s: nat, e: nat)
    requires Periods(jobs) && k < |jobs| && s < e
    requires forall t :: s < t < e ==> !Releases(jobs[k], t)
    ensures Slots(jobs, k, s, e) + BudgetsAt(jobs, e)[k] == ReadyAt(jobs, s)[k]
  {
    hide BudgetsAt, ReadyAt, PickAt, Releases;
    BudgetStep(jobs, k, e - 1);
    if s + 1 < e {
      SlotsComeFromTheBudget(jobs, k, s, e - 1);
    } else {
      assert Slots(jobs, k, s, s) == 0;
    }
  }

  // A periodic task: the ticks it got since its last release and what is left make up c.
  lemma PeriodicConservation(jobs: seq<Job>, k: nat, s: nat, e: nat)
    requires Periods(jobs) && k < |jobs| && Releases(jobs[k], s) && s < e
    requires forall t :: s < t < e ==> !Releases(jobs[k], t)
    ensures Slots(jobs, k, s, e) + BudgetsAt(jobs, e)[k] == jobs[k].c
  {
    hide BudgetsAt, ReadyAt, PickAt;
    SlotsComeFromTheBudget(jobs, k, s, e);
    BudgetStep(jobs, k, s);
  }

  lemma SlotsStep(jobs: seq<Job>, k: nat, s: nat, e: nat)
    requires Periods(jobs) && k < |jobs| && s < e
    ensures Slots(jobs, k, s, e) == Slots(jobs, k, s, e - 1) + (if PickAt(jobs, e - 1) == k then 1 else 0)
    ensures Slots(jobs, k, s, s) == 0
  {
    hide PickAt;
  }

  lemma NothingYet(jobs: seq<Job>, k: nat)
    requires Periods(jobs) && k < |jobs| && jobs[k].aperiodic
    ensures Slots(jobs, k, 0, 0) == BudgetsAt(jobs, 0)[k] == 0
  {}

  lemma ArrivesOnce(jobs: seq<Job>, k: nat, t: nat)
    requires Periods(jobs) && k < |jobs| && jobs[k].aperiodic
    ensures Releases(jobs[k], t) <==> t == jobs[k].a
  {}

  // An aperiodic task: nothing before it arrives, and afterwards its ticks and what is left make up c.
  lemma {:induction false} AperiodicConservation(jobs: seq<Job>, k: nat, e: nat)
    requires Periods(jobs) && k < |jobs| && jobs[k].aperiodic
    ensures Slots(jobs, k, 0, e) + BudgetsAt(jobs, e)[k] == if e <= jobs[k].a then 0 else jobs[k].c
    ensures e <= jobs[k].a ==> Slots(jobs, k, 0, e) == 0
  {
    hide BudgetsAt, ReadyAt, PickAt, Slots, Releases;
    if e > 0 {
      AperiodicConservation(jobs, k, e - 1);
      BudgetStep(jobs, k, e - 1);
      SlotsStep(jobs, k, 0, e);
      ArrivesOnce(jobs, k, e - 1);
    } else {
      NothingYet(jobs, k);
    }
  }
}
