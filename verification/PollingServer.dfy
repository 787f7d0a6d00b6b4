// The scheduler program (STR/ps.c): it updates an array of task records tick by tick.
module PollingServer {
  import opened PollingSpec
  import opened PollingOutcome

  // A task record: what is fixed about it, its budget and the flag of the current tick.
  datatype Task = Task(job: Job, toProcess: nat, wantToProcess: bool)

  function Jobs(s: seq<Task>): (r: seq<Job>)
    ensures |r| == |s|
  {
    seq(|s|, k requires 0 <= k < |s| => s[k].job)
  }

  function Budgets(s: seq<Task>): (r: seq<nat>)
    ensures |r| == |s|
  {
    seq(|s|, k requires 0 <= k < |s| => s[k].toProcess)
  }

  // A record asks for tick t: an aperiodic one only at a polling instant.
  predicate Wants(s: Task, t: nat)
    requires s.job.p >= 1
  {
    Eligible(s.job, s.toProcess, t, if s.job.aperiodic then Server else Periodic)
  }

  // ---------- putting the tasks in priority order ----------

  predicate InOrder(x: Task, y: Task) {
    !(x.job.p > y.job.p || (x.job.p == y.job.p && x.job.id > y.job.id))
  }

  ghost predicate Ordered(s: seq<Task>) {
    forall j, k :: 0 <= j < k < |s| ==> InOrder(s[j], s[k])
  }

  // From end on the records are in order, and none before them belongs after them.
  ghost predicate Settled(s: seq<Task>, end: int) {
    forall j, k :: 0 <= j < k < |s| && k >= end ==> InOrder(s[j], s[k])
  }

  // No record before j belongs after it.
  ghost predicate Greatest(s: seq<Task>, j: nat) {
    j < |s| && forall k :: 0 <= k < j ==> InOrder(s[k], s[j])
  }

  function Swapped(s: seq<Task>, j: nat): (r: seq<Task>)
    requires j + 1 < |s|
    ensures |r| == |s|
  {
    s[j := s[j + 1]][j + 1 := s[j]]
  }

  // s holds the records of r in another order.
  ghost predicate Rearranged(s: seq<Task>, r: seq<Task>) {
    && multiset(s) == multiset(r)
    && multiset(Jobs(s)) == multiset(Jobs(r))
    && (DistinctIds(r) ==> DistinctIds(s))
  }

  lemma SwapRearranges(s: seq<Task>, j: nat)
    requires j + 1 < |s|
    ensures Rearranged(Swapped(s, j), s)
  {
    SwapKeepsMultiset(s, j);
    SwapKeepsMultiset(Jobs(s), j);
    assert Jobs(Swapped(s, j)) == Jobs(s)[j := Jobs(s)[j + 1]][j + 1 := Jobs(s)[j]];
  }

  lemma SwapKeepsMultiset<T>(s: seq<T>, j: nat)
    requires j + 1 < |s|
    ensures multiset(s[j := s[j + 1]][j + 1 := s[j]]) == multiset(s)
  {
    assert s == s[..j] + [s[j], s[j + 1]] + s[j + 2..];
    assert s[j := s[j + 1]][j + 1 := s[j]] == s[..j] + [s[j + 1], s[j]] + s[j + 2..];
  }

  lemma SwapKeepsSettled(s: seq<Task>, j: nat, end: nat)
    requires j + 1 < end && j + 1 < |s| && Settled(s, end) && Greatest(s, j) && !InOrder(s[j], s[j + 1])
    ensures Settled(Swapped(s, j), end) && Greatest(Swapped(s, j), j + 1)
  {
  }

  ghost predicate DistinctIds(s: seq<Task>) {
    forall j, k :: 0 <= j < k < |s| ==> s[j].job.id != s[k].job.id
  }

  method SwapTasks(tasks: array<Task>, j: nat)
    requires j + 1 < tasks.Length
    modifies tasks
    ensures tasks[..] == Swapped(old(tasks[..]), j)
  {
    var aux := tasks[j];
    tasks[j] := tasks[j + 1];
    tasks[j + 1] := aux;
  }

  // Bubble sort by period, then id: every pass moves the lowest priority left to its place.
  method SortPeriod(tasks: array<Task>)
    requires tasks.Length >= 1
    modifies tasks
    ensures Rearranged(tasks[..], old(tasks[..])) && Ordered(tasks[..])
  {
    ghost var input, now := tasks[..], tasks[..];
    for i := 0 to tasks.Length - 1
      invariant tasks[..] == now && Rearranged(now, input)
      invariant Settled(now, tasks.Length - i)
    {
      SortPass(tasks, tasks.Length - i);
      now := tasks[..];
    }
  }

  // One pass over the first end records.
  method SortPass(tasks: array<Task>, end: nat)
    requires 1 <= end <= tasks.Length && Settled(tasks[..], end)
    modifies tasks
    ensures Rearranged(tasks[..], old(tasks[..])) && Settled(tasks[..], end - 1)
  {
    hide Settled, Greatest, DistinctIds, Swapped;
    ghost var input, now := tasks[..], tasks[..];
    GreatestOfOne(now);
    for j := 0 to end - 1
      invariant tasks[..] == now && |now| == |input| && Rearranged(now, input)
      invariant Settled(now, end) && Greatest(now, j)
    {
      assert tasks[j] == now[j] && tasks[j + 1] == now[j + 1];
      if tasks[j].job.p > tasks[j + 1].job.p
        || (tasks[j].job.p == tasks[j + 1].job.p && tasks[j].job.id > tasks[j + 1].job.id) {
        SwapRearranges(now, j);
        SwapKeepsSettled(now, j, end);
        SwapTasks(tasks, j);
        now := tasks[..];
      } else {
        GreatestMoves(now, j);
      }
    }
    SettleGreatest(now, end);
  }

  lemma GreatestOfOne(s: seq<Task>)
    requires |s| >= 1
    ensures Greatest(s, 0)
  {
  }

  lemma GreatestMoves(s: seq<Task>, j: nat)
    requires j + 1 < |s| && Greatest(s, j) && InOrder(s[j], s[j + 1])
    ensures Greatest(s, j + 1)
  {
  }

  lemma SettleGreatest(s: seq<Task>, end: nat)
    requires 1 <= end <= |s| && Settled(s, end) && Greatest(s, end - 1)
    ensures Settled(s, end - 1)
  {
  }

  // ---------- one tick ----------

  // Grants the budgets of the tasks whose period starts, or that arrive, at this tick.
  method VerifyPeriod(tasks: array<Task>, presentTime: nat)
    requires Periods(Jobs(tasks[..]))
    modifies tasks
    ensures Jobs(tasks[..]) == old(Jobs(tasks[..]))
    ensures Budgets(tasks[..]) == Released(old(Jobs(tasks[..])), old(Budgets(tasks[..])), presentTime)
  {
    ghost var was := tasks[..];
    ghost var r := Released(Jobs(was), Budgets(was), presentTime);
    for i := 0 to tasks.Length
      invariant forall k :: 0 <= k < tasks.Length ==> tasks[k].job == was[k].job
      invariant forall k :: 0 <= k < i ==> tasks[k].toProcess == r[k]
      invariant forall k :: i <= k < tasks.Length ==> tasks[k] == was[k]
    {
      var job := tasks[i].job;
      assert job == Jobs(was)[i];
      if (!job.aperiodic && presentTime % job.p == 0 && presentTime != 0) || job.a == presentTime {
        tasks[i] := tasks[i].(toProcess := job.c);
      }
    }
    SameRecords(tasks[..], was);
    assert Budgets(tasks[..]) == r;
  }

  lemma SameRecords(s: seq<Task>, r: seq<Task>)
    requires |s| == |r| && forall k :: 0 <= k < |s| ==> s[k].job == r[k].job
    ensures Jobs(s) == Jobs(r)
  {
  }

  // Flags the records that ask for this tick and counts them.
  method WantProcess(tasks: array<Task>, presentTime: nat) returns (count: nat)
    requires Periods(Jobs(tasks[..]))
    modifies tasks
    ensures Jobs(tasks[..]) == old(Jobs(tasks[..])) && Budgets(tasks[..]) == old(Budgets(tasks[..]))
    ensures Flagged(tasks[..], presentTime)
    ensures forall k :: 0 <= k < tasks.Length ==>
      var j := tasks[k].job;
      tasks[k].wantToProcess <==>
        tasks[k].toProcess > 0 && (j.aperiodic ==> j.a <= presentTime && j.p >= 1 && presentTime % j.p == 0)
    ensures count == 0 <==> forall k :: 0 <= k < tasks.Length ==> !tasks[k].wantToProcess
  {
    ghost var was := tasks[..];
    count := 0;
    for i := 0 to tasks.Length
      invariant forall k :: 0 <= k < tasks.Length ==> tasks[k].job == was[k].job && tasks[k].toProcess == was[k].toProcess
      invariant forall k :: 0 <= k < i ==> Jobs(was)[k].p >= 1 && tasks[k].wantToProcess == Wants(was[k], presentTime)
      invariant forall k :: i <= k < tasks.Length ==> tasks[k] == was[k]
      invariant count == 0 <==> forall k :: 0 <= k < i ==> !tasks[k].wantToProcess
    {
      var task := tasks[i];
      assert task.job == Jobs(was)[i];
      tasks[i] := task.(wantToProcess := false);
      if (task.job.aperiodic && task.job.a <= presentTime && task.toProcess != 0 && presentTime % task.job.p == 0)
        || (!task.job.aperiodic && task.toProcess != 0) {
        tasks[i] := task.(wantToProcess := true);
        count := count + 1;
      }
    }
    SameRecords(tasks[..], was);
    SameBudgets(tasks[..], was);
  }

  // Every flag is the one of this tick.
  ghost predicate Flagged(s: seq<Task>, t: nat) {
    forall k :: 0 <= k < |s| ==> s[k].job.p >= 1 && s[k].wantToProcess == Wants(s[k], t)
  }

  lemma SameBudgets(s: seq<Task>, r: seq<Task>)
    requires |s| == |r| && forall k :: 0 <= k < |s| ==> s[k].toProcess == r[k].toProcess
    ensures Budgets(s) == Budgets(r)
  {
  }

  // The tick goes to the first flagged aperiodic record at a polling instant, else to the first flagged one.
  method ChooseTask(tasks: array<Task>, presentTime: nat) returns (task: char, ghost pick: nat)
    requires Periods(Jobs(tasks[..])) && Flagged(tasks[..], presentTime)
    requires exists k :: 0 <= k < tasks.Length && tasks[k].wantToProcess
    modifies tasks
    ensures Jobs(tasks[..]) == old(Jobs(tasks[..]))
    ensures pick == Pick(old(Jobs(tasks[..])), old(Budgets(tasks[..])), presentTime) < tasks.Length
    ensures Budgets(tasks[..]) == old(Budgets(tasks[..])[pick := Budgets(tasks[..])[pick] - 1])
    ensures task == tasks[pick].job.id
  {
    ghost var s := tasks[..];
    ghost var jobs, b := Jobs(s), Budgets(s);
    var i := 0;
    while i < tasks.Length
      && !(tasks[i].job.aperiodic && presentTime % tasks[i].job.p == 0 && tasks[i].wantToProcess)
      invariant 0 <= i <= tasks.Length
      invariant forall k :: 0 <= k < i ==> !Eligible(jobs[k], b[k], presentTime, Server)
    {
      assert s[i].job == jobs[i] && s[i].toProcess == b[i];
      i := i + 1;
    }
    FirstIs(jobs, b, presentTime, Server, i);
    if i == tasks.Length {
      i := 0;
      while !tasks[i].wantToProcess
        invariant 0 <= i < tasks.Length
        invariant exists k :: i <= k < tasks.Length && s[k].wantToProcess
        invariant forall k :: 0 <= k < i ==> !Eligible(jobs[k], b[k], presentTime, Periodic)
        decreases tasks.Length - i
      {
        assert s[i].job == jobs[i] && s[i].toProcess == b[i];
        i := i + 1;
      }
      assert s[i].job == jobs[i] && s[i].toProcess == b[i];
      FirstIs(jobs, b, presentTime, Periodic, i);
    }
    assert s[i].job == jobs[i] && s[i].toProcess == b[i];
    pick := i;
    task := Serve(tasks, i);
  }

  // i is the first eligible record if it is eligible and none before it is.
  lemma FirstIs(jobs: seq<Job>, b: seq<nat>, t: nat, turn: Turn, i: nat)
    requires |b| == |jobs| && Periods(jobs) && i <= |jobs|
    requires forall k :: 0 <= k < i ==> !Eligible(jobs[k], b[k], t, turn)
    requires i < |jobs| ==> Eligible(jobs[i], b[i], t, turn)
    ensures First(jobs, b, t, turn, 0) == i
  {
  }

  // Takes one tick from the budget of record i.
  method Serve(tasks: array<Task>, i: nat) returns (task: char)
    requires i < tasks.Length && tasks[i].toProcess > 0
    modifies tasks
    ensures Jobs(tasks[..]) == old(Jobs(tasks[..]))
    ensures Budgets(tasks[..]) == old(Budgets(tasks[..])[i := tasks[i].toProcess - 1])
    ensures task == tasks[i].job.id
  {
    ghost var was := tasks[..];
    tasks[i] := tasks[i].(toProcess := tasks[i].toProcess - 1);
    task := tasks[i].job.id;
    SameRecords(tasks[..], was);
    assert Budgets(tasks[..]) == Budgets(was)[i := was[i].toProcess - 1];
  }

  // When nobody asked for the tick: the first arrived aperiodic record with work left, else idle.
  method GetIdleProcess(tasks: array<Task>, period: nat) returns (task: char, ghost pick: nat)
    requires Periods(Jobs(tasks[..])) && Flagged(tasks[..], period)
    requires forall k :: 0 <= k < tasks.Length ==> !tasks[k].wantToProcess
    modifies tasks
    ensures Jobs(tasks[..]) == old(Jobs(tasks[..]))
    ensures pick == Pick(old(Jobs(tasks[..])), old(Budgets(tasks[..])), period) <= tasks.Length
    ensures pick < tasks.Length ==>
              task == tasks[pick].job.id
              && Budgets(tasks[..]) == old(Budgets(tasks[..])[pick := Budgets(tasks[..])[pick] - 1])
    ensures pick == tasks.Length ==> task == IDLE && Budgets(tasks[..]) == old(Budgets(tasks[..]))
  {
    ghost var was := tasks[..];
    ghost var jobs, b := Jobs(was), Budgets(was);
    NobodyAsks(was, period);
    for i := 0 to tasks.Length
      invariant forall k :: 0 <= k < tasks.Length ==> tasks[k].job == was[k].job && tasks[k].toProcess == was[k].toProcess
      invariant forall k :: 0 <= k < i ==> jobs[k].p >= 1 && tasks[k].wantToProcess == Eligible(jobs[k], b[k], period, Background)
      invariant forall k :: i <= k < tasks.Length ==> tasks[k] == was[k]
    {
      assert was[i].job == jobs[i] && was[i].toProcess == b[i];
      if tasks[i].job.aperiodic && tasks[i].toProcess != 0 && tasks[i].job.a <= period {
        tasks[i] := tasks[i].(wantToProcess := true);
      }
    }
    SameRecords(tasks[..], was);
    SameBudgets(tasks[..], was);
    var i := 0;
    while i < tasks.Length && !(tasks[i].job.aperiodic && tasks[i].wantToProcess)
      invariant 0 <= i <= tasks.Length
      invariant forall k :: 0 <= k < i ==> !Eligible(jobs[k], b[k], period, Background)
    {
      i := i + 1;
    }
    FirstIs(jobs, b, period, Background, i);
    pick := i;
    if i < tasks.Length {
      assert was[i].job == jobs[i] && was[i].toProcess == b[i];
      task := Serve(tasks, i);
    } else {
      task := IDLE;
    }
  }

  lemma NobodyAsks(s: seq<Task>, t: nat)
    requires Periods(Jobs(s)) && Flagged(s, t) && forall k :: 0 <= k < |s| ==> !s[k].wantToProcess
    ensures First(Jobs(s), Budgets(s), t, Server, 0) == |s|
    ensures First(Jobs(s), Budgets(s), t, Periodic, 0) == |s|
  {
    var jobs, b := Jobs(s), Budgets(s);
    forall k | 0 <= k < |s|
      ensures !Eligible(jobs[k], b[k], t, Server) && !Eligible(jobs[k], b[k], t, Periodic)
    {
      assert !Wants(s[k], t);
    }
    FirstIs(jobs, b, t, Server, |s|);
    FirstIs(jobs, b, t, Periodic, |s|);
  }

  // ---------- the run ----------

  // The loop over the ticks: it writes the schedule, one character a tick.
  method Schedule(tasks: array<Task>, executionTime: nat, result: array<char>)
    requires Periods(Jobs(tasks[..])) && Budgets(tasks[..]) == BudgetsAt(Jobs(tasks[..]), 0)
    requires executionTime <= result.Length
    modifies tasks, result
    ensures Jobs(tasks[..]) == old(Jobs(tasks[..]))
    ensures Budgets(tasks[..]) == BudgetsAt(old(Jobs(tasks[..])), executionTime)
    ensures forall t :: 0 <= t < executionTime ==> result[t] == Symbol(old(Jobs(tasks[..])), t)
  {
    hide BudgetsAt, Symbol, Pick, Released;
    ghost var jobs := Jobs(tasks[..]);
    for i := 0 to executionTime
      invariant Jobs(tasks[..]) == jobs && Budgets(tasks[..]) == BudgetsAt(jobs, i)
      invariant forall t :: 0 <= t < i ==> result[t] == Symbol(jobs, t)
    {
      var symbol := Tick(tasks, i);
      result[i] := symbol;
    }
  }

  method Tick(tasks: array<Task>, i: nat) returns (symbol: char)
    requires Periods(Jobs(tasks[..])) && Budgets(tasks[..]) == BudgetsAt(Jobs(tasks[..]), i)
    modifies tasks
    ensures Jobs(tasks[..]) == old(Jobs(tasks[..]))
    ensures Budgets(tasks[..]) == BudgetsAt(old(Jobs(tasks[..])), i + 1)
    ensures symbol == Symbol(old(Jobs(tasks[..])), i)
  {
    ghost var jobs := Jobs(tasks[..]);
    hide Pick, Released;
    VerifyPeriod(tasks, i);
    var arrival := WantProcess(tasks, i);
    ghost var r := Budgets(tasks[..]);
    assert r == ReadyAt(jobs, i);
    ghost var pick;
    if arrival != 0 {
      symbol, pick := ChooseTask(tasks, i);
    } else {
      symbol, pick := GetIdleProcess(tasks, i);
    }
    assert pick == PickAt(jobs, i);
    assert pick < |jobs| ==> Jobs(tasks[..])[pick] == tasks[pick].job;
  }

  // ---------- one test case of the input ----------

  // A record as the program reads it.
  function Fresh(job: Job): Task {
    Task(job, if job.aperiodic then 0 else job.c, false)
  }

  // Runs one test case: the schedule of the run is the specified one of the sorted task set. In terms of
  // input and output it is the one that the rule decides, with nobody shown early or too often.
  method Run(executionTime: nat, input: Input, result: array<char>)
    returns (ghost jobs: seq<Job>)
    requires TestCase(input) && |input.periodics| >= 1 && |input.aperiodics| >= 1
    requires executionTime <= result.Length
    modifies result
    ensures TaskSet(jobs, input.pps) && multiset(jobs) == multiset(InputJobs(input))
    ensures AsRead(jobs, input)
    ensures forall t :: 0 <= t < executionTime ==> result[t] == Symbol(jobs, t)
    ensures AllRuled(input, result[..executionTime])
    ensures Bounded(input, result[..executionTime])
  {
    hide BudgetsAt, Symbol, AsRead, AllRuled, Bounded, InputJobs;
    var tasks := ReadTasks(input);
    ghost var read := tasks[..];
    SortPeriod(tasks);
    jobs := Jobs(tasks[..]);
    SortedSetIsTaskSet(read, tasks[..], input);
    Schedule(tasks, executionTime, result);
    assert |jobs| == |multiset(jobs)| == |multiset(InputJobs(input))| == |InputJobs(input)|;
    TasksAsRead(jobs, input);
    ScheduleIsRuled(jobs, input, result[..executionTime]);
    RuleBounds(input, result[..executionTime]);
  }

  method ReadTasks(input: Input) returns (tasks: array<Task>)
    requires TestCase(input)
    ensures fresh(tasks) && tasks.Length == |input.periodics| + |input.aperiodics|
    ensures Jobs(tasks[..]) == InputJobs(input)
    ensures forall k :: 0 <= k < tasks.Length ==> tasks[k] == Fresh(tasks[k].job)
  {
    var total := |input.periodics| + |input.aperiodics|;
    ghost var jobs := InputJobs(input);
    tasks := new Task[total](_ => Task(Job('A', 0, 0, 0, false), 0, false));
    for i := 0 to |input.periodics|
      invariant forall k :: 0 <= k < i ==> tasks[k] == Fresh(jobs[k])
    {
      tasks[i] := Task(Job(Name(i), input.periodics[i].c, input.periodics[i].p, 0, false), input.periodics[i].c, false);
    }
    for i := |input.periodics| to total
      invariant forall k :: 0 <= k < i ==> tasks[k] == Fresh(jobs[k])
    {
      var j := i - |input.periodics|;
      tasks[i] := Task(Job(Name(i), input.aperiodics[j].c, input.pps, input.aperiodics[j].a, true), 0, false);
    }
    assert Jobs(tasks[..]) == jobs;
  }

  lemma SortedSetIsTaskSet(read: seq<Task>, s: seq<Task>, input: Input)
    requires TestCase(input)
    requires Jobs(read) == InputJobs(input)
    requires forall k :: 0 <= k < |read| ==> read[k] == Fresh(read[k].job)
    requires Rearranged(s, read) && Ordered(s)
    ensures TaskSet(Jobs(s), input.pps) && Budgets(s) == BudgetsAt(Jobs(s), 0)
    ensures multiset(Jobs(s)) == multiset(InputJobs(input))
  {
    assert |s| == |multiset(s)| == |multiset(read)| == |read|;
    var jobs := InputJobs(input);
    forall j, k | 0 <= j < k < |read| ensures read[j].job.id != read[k].job.id {
      assert read[j].job == jobs[j] && read[k].job == jobs[k];
    }
    forall k | 0 <= k < |s|
      ensures s[k] == Fresh(s[k].job) && s[k].job.p >= 1
      ensures if s[k].job.aperiodic then s[k].job.p == input.pps else s[k].job.a == 0
    {
      assert s[k] in multiset(read);
      var q :| 0 <= q < |read| && read[q] == s[k];
      assert read[q].job == jobs[q];
    }
    forall j, k | 0 <= j < k < |s| ensures Before(Jobs(s)[j], Jobs(s)[k]) {
      assert InOrder(s[j], s[k]);
    }
  }
}
