// What the scheduler program writes, told from its input and its output alone: no budgets, no flags, no
// task records. Each character follows from the input and the characters before it.
module PollingOutcome {
  import opened PollingSpec

  const NUM_MAX_TAREFAS := 26

  // The id of the k-th task of the input.
  function Name(k: nat): (ch: char)
    requires k < NUM_MAX_TAREFAS
    ensures ch as int == 'A' as int + k
  {
    ('A' as int + k) as char
  }

  // A test case as it is read: computation and period of the periodic tasks, arrival and computation of
  // the aperiodic ones, and the period of the server.
  datatype PeriodicTask = PeriodicTask(c: nat, p: nat)
  datatype AperiodicTask = AperiodicTask(a: nat, c: nat)
  datatype Input = Input(periodics: seq<PeriodicTask>, aperiodics: seq<AperiodicTask>, pps: nat)

  predicate TestCase(input: Input) {
    && |input.periodics| + |input.aperiodics| <= NUM_MAX_TAREFAS && input.pps >= 1
    && forall k :: 0 <= k < |input.periodics| ==> input.periodics[k].p >= 1
  }

  // Its tasks, the periodic ones first; the aperiodic ones take over the period of the server.
  function InputJobs(input: Input): (r: seq<Job>)
    requires TestCase(input)
    ensures |r| == |input.periodics| + |input.aperiodics|
  {
    seq(|input.periodics| + |input.aperiodics|, k requires 0 <= k < |input.periodics| + |input.aperiodics| =>
      if k < |input.periodics| then Job(Name(k), input.periodics[k].c, input.periodics[k].p, 0, false)
      else Job(Name(k), input.aperiodics[k - |input.periodics|].c, input.pps, input.aperiodics[k - |input.periodics|].a, true))
  }

  // ---------- the rule, on input and output ----------

  // The ticks of s..e at which the output shows ch.
  function Shown(out: seq<char>, ch: char, s: nat, e: nat): nat
    requires e <= |out|
    decreases e
  {
    if e <= s then 0 else Shown(out, ch, s, e - 1) + (if out[e - 1] == ch then 1 else 0)
  }

  // Periodic task k has been shown fewer times since its period began than it computes.
  predicate Behind(input: Input, out: seq<char>, t: nat, k: nat)
    requires TestCase(input) && t <= |out|
  {
    k < |input.periodics| && Shown(out, Name(k), t - t % input.periodics[k].p, t) < input.periodics[k].c
  }

  // Aperiodic task j has arrived and is not done.
  predicate Waiting(input: Input, out: seq<char>, t: nat, j: nat)
    requires TestCase(input) && t <= |out|
  {
    && j < |input.aperiodics| && input.aperiodics[j].a <= t
    && Shown(out, Name(|input.periodics| + j), 0, t) < input.aperiodics[j].c
  }

  // Priority among the periodic tasks: the smaller period, then the earlier one in the input.
  predicate NotAfter(input: Input, k: nat, q: nat)
    requires k < |input.periodics| && q < |input.periodics|
  {
    input.periodics[k].p < input.periodics[q].p || (input.periodics[k].p == input.periodics[q].p && k <= q)
  }

  ghost predicate SomeWaiting(input: Input, out: seq<char>, t: nat)
    requires TestCase(input) && t <= |out|
  {
    exists j :: Waiting(input, out, t, j)
  }

  ghost predicate SomeBehind(input: Input, out: seq<char>, t: nat)
    requires TestCase(input) && t <= |out|
  {
    exists k :: Behind(input, out, t, k)
  }

  // Tick t shows aperiodic task j, the first one that waits.
  ghost predicate ShowsAperiodic(input: Input, out: seq<char>, t: nat, j: nat)
    requires TestCase(input) && t < |out|
  {
    && Waiting(input, out, t, j) && out[t] == Name(|input.periodics| + j)
    && forall q :: 0 <= q < j ==> !Waiting(input, out, t, q)
  }

  // Tick t shows periodic task k, of those behind the one of highest priority.
  ghost predicate ShowsPeriodic(input: Input, out: seq<char>, t: nat, k: nat)
    requires TestCase(input) && t < |out|
  {
    && Behind(input, out, t, k) && out[t] == Name(k)
    && forall q :: Behind(input, out, t, q) ==> NotAfter(input, k, q)
  }

  // The character of tick t: an aperiodic task at a polling instant, else a periodic one, else an
  // aperiodic one in the background, else the idle one.
  ghost predicate Ruled(input: Input, out: seq<char>, t: nat)
    requires TestCase(input) && t < |out|
  {
    var waits := SomeWaiting(input, out, t);
    if (t % input.pps == 0 || !SomeBehind(input, out, t)) && waits then
      exists j :: ShowsAperiodic(input, out, t, j)
    else if SomeBehind(input, out, t) then
      exists k :: ShowsPeriodic(input, out, t, k)
    else out[t] == '.'
  }

  ghost predicate AllRuled(input: Input, out: seq<char>)
    requires TestCase(input)
  {
    forall t :: 0 <= t < |out| ==> Ruled(input, out, t)
  }

  // ---------- what follows from the rule ----------

  // Whoever is shown was behind, or waiting.
  lemma ShownInTurn(input: Input, out: seq<char>, t: nat, k: nat)
    requires TestCase(input) && t < |out| && Ruled(input, out, t)
    requires k < |input.periodics| + |input.aperiodics| && out[t] == Name(k)
    ensures k < |input.periodics| ==> Behind(input, out, t, k)
    ensures k >= |input.periodics| ==> Waiting(input, out, t, k - |input.periodics|)
  {
    hide Shown, SomeBehind, SomeWaiting;
  }

  // An aperiodic task is not shown before it arrives, nor more often than it computes.
  lemma {:induction false} AperiodicBound(input: Input, out: seq<char>, j: nat, e: nat)
    requires TestCase(input) && AllRuled(input, out)
    requires j < |input.aperiodics| && e <= |out|
    ensures Shown(out, Name(|input.periodics| + j), 0, e) <= input.aperiodics[j].c
    ensures e <= input.aperiodics[j].a ==> Shown(out, Name(|input.periodics| + j), 0, e) == 0
  {
    hide Ruled;
    if e > 0 {
      AperiodicBound(input, out, j, e - 1);
      if out[e - 1] == Name(|input.periodics| + j) {
        ShownInTurn(input, out, e - 1, |input.periodics| + j);
      }
    }
  }

  // The period of an instant.
  lemma PeriodStart(p: nat, s: nat, t: nat)
    requires p >= 1 && s % p == 0 && s <= t < s + p
    ensures t - t % p == s
  {
    var q := s / p;
    assert s == p * q;
    assert t == p * q + (t - s);
    Remainder(p, q, t - s);
  }

  lemma Remainder(p: nat, q: nat, r: nat)
    requires r < p
    ensures (p * q + r) % p == r
  {
    var d := (p * q + r) / p - q;
    var m := (p * q + r) % p;
    assert p * d == r - m by {
      assert p * ((p * q + r) / p) + m == p * q + r;
    }
    assert d >= 1 ==> p * (d - 1) >= 0;
    assert d <= -1 ==> p * (-1 - d) >= 0;
  }

  // A periodic task is shown at most c times in a period.
  lemma {:induction false} PeriodicBound(input: Input, out: seq<char>,
                                         k: nat, s: nat, e: nat)
    requires TestCase(input) && AllRuled(input, out)
    requires k < |input.periodics| && s % input.periodics[k].p == 0 && s <= e <= s + input.periodics[k].p && e <= |out|
    ensures Shown(out, Name(k), s, e) <= input.periodics[k].c
    decreases e
  {
    hide Ruled;
    if e > s {
      PeriodicBound(input, out, k, s, e - 1);
      if out[e - 1] == Name(k) {
        ShownInTurn(input, out, e - 1, k);
        PeriodStart(input.periodics[k].p, s, e - 1);
      }
    }
  }

  // An aperiodic task is not shown before it arrives, nor more often than it computes...
  ghost predicate AperiodicBounded(input: Input, out: seq<char>, j: nat, e: nat)
    requires TestCase(input) && j < |input.aperiodics| && e <= |out|
  {
    && Shown(out, Name(|input.periodics| + j), 0, e) <= input.aperiodics[j].c
    && (e <= input.aperiodics[j].a ==> Shown(out, Name(|input.periodics| + j), 0, e) == 0)
  }

  // ...and a periodic one not more often than that from the start s of a period to its end.
  ghost predicate PeriodicBounded(input: Input, out: seq<char>, k: nat, s: nat, e: nat)
    requires TestCase(input) && k < |input.periodics| && e <= |out|
  {
    s % input.periodics[k].p == 0 && s <= e <= s + input.periodics[k].p ==> Shown(out, Name(k), s, e) <= input.periodics[k].c
  }

  ghost predicate Bounded(input: Input, out: seq<char>)
    requires TestCase(input)
  {
    && (forall j, e :: 0 <= j < |input.aperiodics| && 0 <= e <= |out| ==> AperiodicBounded(input, out, j, e))
    && (forall k, s, e :: 0 <= k < |input.periodics| && 0 <= s && 0 <= e <= |out| ==> PeriodicBounded(input, out, k, s, e))
  }

  lemma RuleBounds(input: Input, out: seq<char>)
    requires TestCase(input) && AllRuled(input, out)
    ensures Bounded(input, out)
  {
    hide Shown, AllRuled;
    forall j, e | 0 <= j < |input.aperiodics| && 0 <= e <= |out|
      ensures AperiodicBounded(input, out, j, e)
    {
      AperiodicBound(input, out, j, e);
    }
    forall k, s, e | 0 <= k < |input.periodics| && 0 <= s && 0 <= e <= |out|
      ensures PeriodicBounded(input, out, k, s, e)
    {
      if s % input.periodics[k].p == 0 && s <= e <= s + input.periodics[k].p {
        PeriodicBound(input, out, k, s, e);
      }
    }
  }

  // If it is shown fewer times than that, no tick of the period went to anybody but aperiodic tasks that
  // were polled and periodic ones that do not come after it.
  lemma ShortOnlyUnderLoad(input: Input, out: seq<char>,
                           k: nat, s: nat, t: nat)
    requires TestCase(input) && AllRuled(input, out)
    requires k < |input.periodics| && s % input.periodics[k].p == 0 && s <= t < s + input.periodics[k].p && t < |out|
    requires Shown(out, Name(k), s, t) < input.periodics[k].c
    ensures (t % input.pps == 0 && exists j :: ShowsAperiodic(input, out, t, j))
         || (exists q :: ShowsPeriodic(input, out, t, q) && NotAfter(input, q, k))
  {
    hide Waiting, ShowsAperiodic, SomeWaiting, NotAfter;
    assert Behind(input, out, t, k) by { PeriodStart(input.periodics[k].p, s, t); }
    hide Behind, Shown;
    assert SomeBehind(input, out, t);
    assert Ruled(input, out, t);
  }

  // ---------- the rule decides every character ----------

  lemma {:induction false} ShownOfPrefix(x: seq<char>, y: seq<char>, ch: char, s: nat, e: nat)
    requires e <= |x| && e <= |y| && x[..e] == y[..e]
    ensures Shown(x, ch, s, e) == Shown(y, ch, s, e)
    decreases e
  {
    if e > s {
      assert x[e - 1] == x[..e][e - 1] == y[..e][e - 1] == y[e - 1];
      assert x[..e - 1] == x[..e][..e - 1] == y[..e - 1];
      ShownOfPrefix(x, y, ch, s, e - 1);
    }
  }

  lemma SameNeeds(input: Input, x: seq<char>, y: seq<char>, t: nat)
    requires TestCase(input) && t <= |x| && t <= |y| && x[..t] == y[..t]
    ensures forall k :: 0 <= k < |input.periodics| ==> Behind(input, x, t, k) == Behind(input, y, t, k)
    ensures forall j :: 0 <= j < |input.aperiodics| ==>
      Waiting(input, x, t, j) == Waiting(input, y, t, j)
  {
    forall k | 0 <= k < |input.periodics|
      ensures Behind(input, x, t, k) == Behind(input, y, t, k)
    {
      ShownOfPrefix(x, y, Name(k), t - t % input.periodics[k].p, t);
    }
    forall j | 0 <= j < |input.aperiodics|
      ensures Waiting(input, x, t, j) == Waiting(input, y, t, j)
    {
      ShownOfPrefix(x, y, Name(|input.periodics| + j), 0, t);
    }
  }

  lemma SameCharacter(input: Input, x: seq<char>, y: seq<char>, t: nat)
    requires TestCase(input) && t < |x| && t < |y| && x[..t] == y[..t]
    requires Ruled(input, x, t) && Ruled(input, y, t)
    ensures x[t] == y[t]
  {
    SameNeeds(input, x, y, t);
    hide Behind, Waiting;
  }

  // There is exactly one schedule of a test case that follows the rule.
  lemma {:induction false} RuleDecides(input: Input, x: seq<char>, y: seq<char>, e: nat)
    requires TestCase(input) && |x| == |y| && e <= |x|
    requires AllRuled(input, x) && AllRuled(input, y)
    ensures x[..e] == y[..e]
  {
    hide Ruled;
    if e > 0 {
      RuleDecides(input, x, y, e - 1);
      SameCharacter(input, x, y, e - 1);
      assert x[..e] == x[..e - 1] + [x[e - 1]] && y[..e] == y[..e - 1] + [y[e - 1]];
    }
  }

  // ---------- the specified schedule follows the rule ----------

  // jobs are the tasks of the test case in priority order.
  ghost predicate Tasks(jobs: seq<Job>, input: Input) {
    && TestCase(input) && TaskSet(jobs, input.pps)
    && |jobs| == |input.periodics| + |input.aperiodics|
    && multiset(jobs) == multiset(InputJobs(input))
  }

  function PeriodicJob(input: Input, k: nat): Job
    requires TestCase(input) && k < |input.periodics|
  {
    Job(Name(k), input.periodics[k].c, input.periodics[k].p, 0, false)
  }

  function AperiodicJob(input: Input, j: nat): Job
    requires j < |input.aperiodics| && TestCase(input)
  {
    Job(Name(|input.periodics| + j), input.aperiodics[j].c, input.pps, input.aperiodics[j].a, true)
  }

  // Where a task of the input stands in the set...
  lemma Place(jobs: seq<Job>, input: Input, k: nat) returns (i: nat)
    requires Tasks(jobs, input) && k < |jobs|
    ensures i < |jobs| && jobs[i] == InputJobs(input)[k]
  {
    assert InputJobs(input)[k] in multiset(jobs);
    i :| 0 <= i < |jobs| && jobs[i] == InputJobs(input)[k];
  }

  lemma PlaceOfPeriodic(jobs: seq<Job>, input: Input, k: nat) returns (i: nat)
    requires Tasks(jobs, input) && k < |input.periodics|
    ensures i < |jobs| && jobs[i] == PeriodicJob(input, k)
  {
    i := Place(jobs, input, k);
  }

  lemma PlaceOfAperiodic(jobs: seq<Job>, input: Input, j: nat) returns (i: nat)
    requires Tasks(jobs, input) && j < |input.aperiodics|
    ensures i < |jobs| && jobs[i] == AperiodicJob(input, j)
  {
    i := Place(jobs, input, |input.periodics| + j);
  }

  // ...and which task of the input stands at i.
  lemma Origin(jobs: seq<Job>, input: Input, i: nat) returns (k: nat)
    requires Tasks(jobs, input) && i < |jobs|
    ensures !jobs[i].aperiodic ==> k < |input.periodics| && jobs[i] == PeriodicJob(input, k)
    ensures jobs[i].aperiodic ==> k < |input.aperiodics| && jobs[i] == AperiodicJob(input, k)
  {
    assert jobs[i] in multiset(InputJobs(input));
    var q :| 0 <= q < |jobs| && jobs[i] == InputJobs(input)[q];
    k := if q < |input.periodics| then q else q - |input.periodics|;
  }

  lemma OnePlace(jobs: seq<Job>, input: Input, i: nat, j: nat)
    requires Tasks(jobs, input) && i < |jobs| && j < |jobs| && jobs[i].id == jobs[j].id
    ensures i == j
  {
    var k := Origin(jobs, input, i);
    var q := Origin(jobs, input, j);
    assert !Before(jobs[i], jobs[j]) && !Before(jobs[j], jobs[i]);
  }

  ghost predicate Writes(jobs: seq<Job>, out: seq<char>)
    requires Periods(jobs)
  {
    forall t :: 0 <= t < |out| ==> out[t] == Symbol(jobs, t)
  }

  // A tick shows task i exactly when it goes to it.
  lemma SymbolOf(jobs: seq<Job>, input: Input, i: nat, t: nat)
    requires Tasks(jobs, input) && i < |jobs|
    ensures Symbol(jobs, t) == jobs[i].id <==> PickAt(jobs, t) == i
  {
    hide PickAt;
    var k := Origin(jobs, input, i);
    assert jobs[i].id != '.';
    if PickAt(jobs, t) < |jobs| && Symbol(jobs, t) == jobs[i].id {
      OnePlace(jobs, input, PickAt(jobs, t), i);
    }
  }

  // The ticks that show a task are the ticks it gets.
  lemma {:induction false} ShownAreSlots(jobs: seq<Job>, input: Input, out: seq<char>,
                                         i: nat, s: nat, e: nat)
    requires Tasks(jobs, input) && Writes(jobs, out) && i < |jobs| && e <= |out|
    ensures Shown(out, jobs[i].id, s, e) == Slots(jobs, i, s, e)
    decreases e
  {
    hide PickAt, Symbol;
    if e > s {
      ShownAreSlots(jobs, input, out, i, s, e - 1);
      SymbolOf(jobs, input, i, e - 1);
    }
  }

  // No period begins within a period.
  lemma WithinPeriod(p: nat, t: nat, u: nat)
    requires p >= 1 && t - t % p < u <= t
    ensures u % p == u - (t - t % p) != 0
  {
    var q := t / p;
    assert t - t % p == p * q;
    Remainder(p, q, u - p * q);
  }

  lemma AtPeriodStart(p: nat, t: nat)
    requires p >= 1
    ensures 0 <= t - t % p <= t && (t - t % p) % p == 0
  {
    var q := t / p;
    assert t - t % p == p * q;
    Remainder(p, q, 0);
  }

  // What tick t can take from a periodic task: what its period has left of the computation.
  lemma ReadyOfPeriodic(jobs: seq<Job>, i: nat, t: nat)
    requires Periods(jobs) && i < |jobs| && !jobs[i].aperiodic && jobs[i].a == 0
    ensures Slots(jobs, i, t - t % jobs[i].p, t) + ReadyAt(jobs, t)[i] == jobs[i].c
  {
    var p := jobs[i].p;
    var s: nat := t - t % p;
    AtPeriodStart(p, t);
    hide ReadyAt, BudgetsAt, PickAt, Slots;
    assert Releases(jobs[i], s);
    forall u | s < u <= t ensures !Releases(jobs[i], u) { WithinPeriod(p, t, u); }
    BudgetStep(jobs, i, t);
    if s < t {
      PeriodicConservation(jobs, i, s, t);
    } else {
      SlotsStep(jobs, i, s, s + 1);
    }
  }

  // And from an aperiodic one: nothing before it arrives, then what it has left.
  lemma ReadyOfAperiodic(jobs: seq<Job>, i: nat, t: nat)
    requires Periods(jobs) && i < |jobs| && jobs[i].aperiodic
    ensures Slots(jobs, i, 0, t) + ReadyAt(jobs, t)[i] == if jobs[i].a <= t then jobs[i].c else 0
  {
    hide ReadyAt, BudgetsAt, PickAt, Slots, Releases;
    AperiodicConservation(jobs, i, t);
    ArrivesOnce(jobs, i, t);
    BudgetStep(jobs, i, t);
  }

  // The ticks shown since the period began, and the budget left, make up the computation: all of it is
  // shown exactly when nothing is left.
  lemma PeriodicBalance(jobs: seq<Job>, input: Input, out: seq<char>, i: nat, k: nat, s: nat, e: nat)
    requires Tasks(jobs, input) && Writes(jobs, out)
    requires i < |jobs| && k < |input.periodics| && jobs[i] == PeriodicJob(input, k)
    requires s % input.periodics[k].p == 0 && s < e <= s + input.periodics[k].p && e <= |out|
    ensures Shown(out, Name(k), s, e) + BudgetsAt(jobs, e)[i] == input.periodics[k].c
  {
    var p := input.periodics[k].p;
    assert Releases(jobs[i], s);
    forall u | s < u < e ensures !Releases(jobs[i], u) {
      PeriodStart(p, s, u);
      WithinPeriod(p, u, u);
    }
    ShownAreSlots(jobs, input, out, i, s, e);
    hide Releases, BudgetsAt, ReadyAt, Slots, Shown, Writes;
    PeriodicConservation(jobs, i, s, e);
  }

  // Budget left means behind...
  lemma PeriodicPending(jobs: seq<Job>, input: Input, out: seq<char>, t: nat, i: nat, k: nat)
    requires Tasks(jobs, input) && Writes(jobs, out) && t < |out|
    requires i < |jobs| && k < |input.periodics| && jobs[i] == PeriodicJob(input, k)
    ensures ReadyAt(jobs, t)[i] > 0 <==> Behind(input, out, t, k)
  {
    hide ReadyAt, Slots, Shown, Writes;
    ReadyOfPeriodic(jobs, i, t);
    ShownAreSlots(jobs, input, out, i, t - t % jobs[i].p, t);
  }

  // ...or waiting.
  lemma AperiodicPending(jobs: seq<Job>, input: Input, out: seq<char>, t: nat, i: nat, j: nat)
    requires Tasks(jobs, input) && Writes(jobs, out) && t < |out|
    requires i < |jobs| && j < |input.aperiodics| && jobs[i] == AperiodicJob(input, j)
    ensures jobs[i].a <= t && ReadyAt(jobs, t)[i] > 0 <==> Waiting(input, out, t, j)
  {
    hide ReadyAt, Slots, Shown, Writes;
    ReadyOfAperiodic(jobs, i, t);
    ShownAreSlots(jobs, input, out, i, 0, t);
  }

  lemma SetOf(jobs: seq<Job>, input: Input)
    requires Tasks(jobs, input)
    ensures TestCase(input) && TaskSet(jobs, input.pps) && Periods(jobs)
  {
  }

  // An aperiodic task that the tick can go to...
  ghost predicate Offers(jobs: seq<Job>, t: nat, q: nat)
    requires Periods(jobs)
  {
    q < |jobs| && jobs[q].aperiodic && jobs[q].a <= t && ReadyAt(jobs, t)[q] > 0
  }

  // ...and a periodic one.
  ghost predicate Lags(jobs: seq<Job>, t: nat, q: nat)
    requires Periods(jobs)
  {
    q < |jobs| && !jobs[q].aperiodic && ReadyAt(jobs, t)[q] > 0
  }

  // At a polling instant, and when no periodic task can go, the tick goes to an aperiodic task of least id.
  lemma PickOfAperiodic(jobs: seq<Job>, pps: nat, t: nat, q: nat)
    requires TaskSet(jobs, pps) && pps >= 1 && Offers(jobs, t, q)
    requires t % pps == 0 || !exists q: nat :: Lags(jobs, t, q)
    ensures Offers(jobs, t, PickAt(jobs, t)) && jobs[PickAt(jobs, t)].id <= jobs[q].id
  {
    var b := ReadyAt(jobs, t);
    PickIsHighestPriority(jobs, pps, b, t);
    hide ReadyAt, Pick, TaskSet;
    assert jobs[q].aperiodic && jobs[q].a <= t && b[q] > 0;
    if t % pps != 0 {
      forall q | 0 <= q < |jobs| && !jobs[q].aperiodic ensures b[q] == 0 {
        assert !Lags(jobs, t, q);
      }
    }
  }

  // Otherwise to the periodic task that comes first.
  lemma PickOfPeriodic(jobs: seq<Job>, pps: nat, t: nat, q: nat)
    requires TaskSet(jobs, pps) && pps >= 1 && Lags(jobs, t, q)
    requires t % pps != 0 || !exists q: nat :: Offers(jobs, t, q)
    ensures var r := PickAt(jobs, t);
      Lags(jobs, t, r) && (jobs[r].p < jobs[q].p || (jobs[r].p == jobs[q].p && jobs[r].id <= jobs[q].id))
  {
    var b := ReadyAt(jobs, t);
    PickIsHighestPriority(jobs, pps, b, t);
    hide ReadyAt, Pick, TaskSet;
    assert !jobs[q].aperiodic && b[q] > 0;
    if t % pps == 0 {
      forall q | 0 <= q < |jobs| && jobs[q].aperiodic && jobs[q].a <= t ensures b[q] == 0 {
        assert !Offers(jobs, t, q);
      }
    }
  }

  lemma PickOfNobody(jobs: seq<Job>, pps: nat, t: nat)
    requires TaskSet(jobs, pps) && pps >= 1
    requires !exists q: nat :: Lags(jobs, t, q)
    requires !exists q: nat :: Offers(jobs, t, q)
    ensures PickAt(jobs, t) == |jobs|
  {
    var b, r := ReadyAt(jobs, t), PickAt(jobs, t);
    hide ReadyAt, TaskSet;
    IdleExactlyWhenNothingIsPending(jobs, b, t);
    forall q | 0 <= q < |jobs| && (jobs[q].aperiodic ==> jobs[q].a <= t) ensures b[q] == 0 {
      assert !Lags(jobs, t, q) && !Offers(jobs, t, q);
    }
  }

  lemma WaitingOffers(jobs: seq<Job>, input: Input, out: seq<char>, t: nat, j: nat) returns (q: nat)
    requires Tasks(jobs, input) && Writes(jobs, out) && t < |out|
    requires Waiting(input, out, t, j)
    ensures Offers(jobs, t, q)
  {
    SetOf(jobs, input);
    hide ReadyAt, Waiting, Writes, TaskSet, Tasks, Periods;
    q := PlaceOfAperiodic(jobs, input, j);
    AperiodicPending(jobs, input, out, t, q, j);
  }

  lemma OffersWait(jobs: seq<Job>, input: Input, out: seq<char>, t: nat, q: nat) returns (j: nat)
    requires Tasks(jobs, input) && Writes(jobs, out) && t < |out|
    requires Offers(jobs, t, q)
    ensures Waiting(input, out, t, j)
  {
    SetOf(jobs, input);
    hide ReadyAt, Waiting, Writes, TaskSet, Tasks, Periods;
    j := Origin(jobs, input, q);
    AperiodicPending(jobs, input, out, t, q, j);
  }

  // Somebody waits, or is behind, in the input exactly when a task of the set has budget left.
  lemma WaitingSomewhere(jobs: seq<Job>, input: Input, out: seq<char>, t: nat)
    requires Tasks(jobs, input) && Writes(jobs, out) && t < |out|
    ensures SomeWaiting(input, out, t) <==> exists q: nat :: Offers(jobs, t, q)
  {
    SetOf(jobs, input);
    hide Waiting, Writes, TaskSet, Tasks, Periods, Offers;
    if SomeWaiting(input, out, t) {
      var j :| Waiting(input, out, t, j);
      var q := WaitingOffers(jobs, input, out, t, j);
    }
    if exists q: nat :: Offers(jobs, t, q) {
      var q: nat :| Offers(jobs, t, q);
      var j := OffersWait(jobs, input, out, t, q);
    }
  }

  lemma BehindSomewhere(jobs: seq<Job>, input: Input, out: seq<char>, t: nat)
    requires Tasks(jobs, input) && Writes(jobs, out) && t < |out|
    ensures SomeBehind(input, out, t) <==> exists q: nat :: Lags(jobs, t, q)
  {
    SetOf(jobs, input);
    hide ReadyAt, Shown, Writes, TaskSet, Tasks, Periods;
    if SomeBehind(input, out, t) {
      var k :| Behind(input, out, t, k);
      var q := PlaceOfPeriodic(jobs, input, k);
      PeriodicPending(jobs, input, out, t, q, k);
      assert Lags(jobs, t, q);
    }
    if exists q: nat :: Lags(jobs, t, q) {
      var q: nat :| Lags(jobs, t, q);
      var k := Origin(jobs, input, q);
      PeriodicPending(jobs, input, out, t, q, k);
    }
  }

  // The arrived aperiodic task of least id is the first one that waits.
  lemma FirstWaiting(jobs: seq<Job>, input: Input, out: seq<char>, t: nat, r: nat)
    returns (j: nat)
    requires Tasks(jobs, input) && Writes(jobs, out) && t < |out|
    requires Offers(jobs, t, r) && out[t] == jobs[r].id
    requires forall q: nat :: Offers(jobs, t, q) ==> jobs[r].id <= jobs[q].id
    ensures ShowsAperiodic(input, out, t, j)
  {
    SetOf(jobs, input);
    hide ReadyAt, Waiting, Writes, TaskSet, Tasks, Periods;
    j := Origin(jobs, input, r);
    AperiodicPending(jobs, input, out, t, r, j);
    forall q | 0 <= q < j ensures !Waiting(input, out, t, q) {
      var i := PlaceOfAperiodic(jobs, input, q);
      AperiodicPending(jobs, input, out, t, i, q);
      assert jobs[i].id < jobs[r].id;
    }
  }

  // The periodic task with budget that comes first is the one behind of highest priority.
  lemma FirstBehind(jobs: seq<Job>, input: Input, out: seq<char>, t: nat, r: nat)
    returns (k: nat)
    requires Tasks(jobs, input) && Writes(jobs, out) && t < |out|
    requires Lags(jobs, t, r) && out[t] == jobs[r].id
    requires forall q: nat :: Lags(jobs, t, q) ==> jobs[r].p < jobs[q].p || (jobs[r].p == jobs[q].p && jobs[r].id <= jobs[q].id)
    ensures ShowsPeriodic(input, out, t, k)
  {
    SetOf(jobs, input);
    hide ReadyAt, Shown, Writes, TaskSet, Tasks, Periods;
    k := Origin(jobs, input, r);
    PeriodicPending(jobs, input, out, t, r, k);
    forall q | Behind(input, out, t, q) ensures NotAfter(input, k, q) {
      var i := PlaceOfPeriodic(jobs, input, q);
      PeriodicPending(jobs, input, out, t, i, q);
      assert Lags(jobs, t, i);
    }
  }

  // Every tick of the specified schedule is as the rule says.
  lemma TickIsRuled(jobs: seq<Job>, input: Input, out: seq<char>, t: nat)
    requires Tasks(jobs, input) && Writes(jobs, out) && t < |out|
    ensures Ruled(input, out, t)
  {
    WaitingSomewhere(jobs, input, out, t);
    BehindSomewhere(jobs, input, out, t);
    var r := PickAt(jobs, t);
    assert r < |jobs| ==> out[t] == jobs[r].id;
    assert r == |jobs| ==> out[t] == '.';
    hide Offers, Lags, PickAt, Symbol, Writes, SomeWaiting, SomeBehind, ShowsAperiodic, ShowsPeriodic;
    if (t % input.pps == 0 || !SomeBehind(input, out, t)) && SomeWaiting(input, out, t) {
      forall q: nat | Offers(jobs, t, q) ensures Offers(jobs, t, r) && jobs[r].id <= jobs[q].id {
        PickOfAperiodic(jobs, input.pps, t, q);
      }
      var j := FirstWaiting(jobs, input, out, t, r);
    } else if SomeBehind(input, out, t) {
      forall q: nat | Lags(jobs, t, q)
        ensures Lags(jobs, t, r) && (jobs[r].p < jobs[q].p || (jobs[r].p == jobs[q].p && jobs[r].id <= jobs[q].id))
      {
        PickOfPeriodic(jobs, input.pps, t, q);
      }
      var k := FirstBehind(jobs, input, out, t, r);
    } else {
      PickOfNobody(jobs, input.pps, t);
    }
  }

  // The set holds every task of the input, with its own computation, period and arrival.
  ghost predicate PeriodicRead(jobs: seq<Job>, input: Input, k: nat)
    requires TestCase(input) && k < |input.periodics|
  {
    exists i :: 0 <= i < |jobs| && jobs[i] == Job('A' + k as char, input.periodics[k].c, input.periodics[k].p, 0, false)
  }

  ghost predicate AperiodicRead(jobs: seq<Job>, input: Input, j: nat)
    requires j < |input.aperiodics| && TestCase(input)
  {
    exists i :: 0 <= i < |jobs| && jobs[i] == Job('A' + (|input.periodics| + j) as char, input.aperiodics[j].c, input.pps, input.aperiodics[j].a, true)
  }

  ghost predicate AsRead(jobs: seq<Job>, input: Input)
    requires TestCase(input)
  {
    && |jobs| == |input.periodics| + |input.aperiodics|
    && (forall k :: 0 <= k < |input.periodics| ==> PeriodicRead(jobs, input, k))
    && (forall j :: 0 <= j < |input.aperiodics| ==> AperiodicRead(jobs, input, j))
  }

  lemma TasksAsRead(jobs: seq<Job>, input: Input)
    requires Tasks(jobs, input)
    ensures AsRead(jobs, input)
  {
    forall k | 0 <= k < |input.periodics| ensures PeriodicRead(jobs, input, k) {
      var i := PlaceOfPeriodic(jobs, input, k);
    }
    forall j | 0 <= j < |input.aperiodics| ensures AperiodicRead(jobs, input, j) {
      var i := PlaceOfAperiodic(jobs, input, j);
    }
  }

  // The specified schedule of a test case is the one that the rule decides.
  lemma ScheduleIsRuled(jobs: seq<Job>, input: Input, out: seq<char>)
    requires Tasks(jobs, input) && Writes(jobs, out)
    ensures AllRuled(input, out)
  {
    hide Ruled, Writes;
    forall t | 0 <= t < |out| ensures Ruled(input, out, t) {
      TickIsRuled(jobs, input, out, t);
    }
  }
}
