# Verified models of seven programs

Seven programs of this repository whose correctness is a matter of protocol or arithmetic, modelled in
Dafny 4.11 and proved: four parallel sorters (MPI), a real-time scheduler, a micro-sequenced processor and
a lock protocol. `dafny verify dfyconfig.toml` checks everything.

| part | files | what it models |
|---|---|---|
| phase sort | `SortSpec`, `BubbleSort`, `PhaseSpec`, `PhaseRanks`, `PhaseCluster` | `PPD/MPI/T4/maiki.c`: ranks with overlapping windows sort and exchange until an all-reduce sees no swap |
| scheduler | `PollingSpec`, `PollingOutcome`, `PollingAnalysis`, `PollingServer` | `STR/ps.c`: rate-monotonic ticks with a polling server |
| tree sort | `Merging`, `BinomialTree`, `BinomialSort`, `BinomialProof`, `BinomialRuns`, `BinomialWorker` | `PPD/MPI/T3/dc.c`: divide and conquer on a binomial tree, replies from any source (`Merging` also serves the farm sort) |
| pipeline sort | `PipelineStage`, `Pipeline`, `PipelineProof`, `PipelineRuns` | `PPD/MPI/T2/pipeline.c`: insertion stages over FIFO channels, a token orders the output |
| farm sort | `RankSort`, `MasterSlave`, `MasterSlaveProof`, `MasterSlaveRuns`, `MasterSlaveWorker`, `MasterSlaveStale`, `MasterSlaveMass`, `MasterSlaveExact`, `MasterSlaveSchedule` | `PPD/MPI/T1/master-slave.c`: chunks on demand, merged in order of completion |
| philosophers | `Philosophers`, `PhilosophersProof`, `PhilosophersRuns` | `SYSOP/src/threads/main.c`: n threads, trylock and back-off |
| 8051 | `Mcs51*` | `VLSI2/8051/*.vhd`: controller, RAM, ALU and decoder, clock by clock |

## How they are modelled

- Work on arrays and records in place (the sorts and merges, the scheduler's tables, the ranks' buffers,
  the RAM unit, the division loop) is imperative: methods and classes whose postconditions name the
  function of the old contents they compute. The properties are proved about these functions.
- Concurrency is a machine of steps. Every enabled process may go next; channels are FIFO per pair of
  ranks; a receive from any source takes the first message of any channel. Safety is an invariant kept
  by every step, termination a measure lowered by every step, and freedom from deadlock is shown for
  sends that wait for their receiver, which covers buffered sends too.
- Barriers and all-reduces are single collective steps. A semaphore, a mutex and `fim` are accessed one
  step at a time.
- A clocked VHDL process assigns signals that change after the edge, all at once; one edge is therefore a
  function from state to state. Don't-care values come from a noise parameter that is arbitrary at every
  edge, so that nothing proved depends on them. `Mcs51Board` wires the units together as an object.
- Integers are unbounded except in the 8051, whose bytes and words wrap around.

## What the programs do not do

Where a property does not hold for all inputs, the model keeps the program as it is, and the exact
condition is proved.

- The phase sort sorts every input if and only if neighbours share at least one integer.
- The periodic tasks up to a given one all meet their releases under every aperiodic load if and only if
  the demand of each of them that computes at all fits its period; the usual closed form is only
  sufficient.
- The tree sort ends if and only if there is a value to sort, or only one rank.
- The rank sort sorts a chunk over any array if and only if its values are distinct. The farm ends if and
  only if every chunk starts above -1, the value that stops a slave, and then sorts, in all runs, if and
  only if the first chunks, one for each slave, repeat no value, and a later chunk, once sorted, repeats
  one only at positions where every chunk that may precede it on its slave has the same value: any
  earlier chunk, or with a single slave the one before.
- A meal is within reach if and only if there are two philosophers or more, but no fairness of
  the steps guarantees one.
- The 8051's DA corrects the high digit on a carry only: decimal sums from 100 to 159 come out wrong.
  MOVX, RETI and A5 stop the chip. A call whose return address falls on a port or on the stack pointer
  comes back by coincidence only. The comments of PUSH, POP, ACALL,
  LCALL, RET and DJNZ give an order of transfers that the code does not keep. Both orders come to the
  same except for POP to the stack pointer, PUSH of it, PUSH where the top is the stack pointer, calls at
  the stack pointers 7F and 80, RET at 82, and DJNZ on a port; `Mcs51Comments` has the conditions to the
  byte, and an input for each. The model follows the code.

## Model

| member | source | states |
|---|---|---|
| SortSpec.SortUnique | PPD/MPI/T4/maiki.c:264-266 | what "sorted output" means for all four sorters: an ordered rearrangement of the input, of which there is exactly one |
| SortSpec.SwapRemovesOneInversion | PPD/MPI/T4/maiki.c:66-70 | exchanging two neighbours that are out of order lowers the number of inversions by exactly one |
| SortSpec.SortedIffNoInversions | PPD/MPI/T4/maiki.c:63-74 | the measure is zero exactly on sorted sequences |
| SortSpec.RearrangingAWindow | PPD/MPI/T4/maiki.c:166-184 | rearranging a window changes the inversions of the whole array by exactly what it changes inside the window |
| BubbleSort.BubbleSort | PPD/MPI/T4/maiki.c:61-75 | in place: the used cells end up sorted, the result is 1 exactly if they were sorted before, the exchanges are as many as the inversions, and the passes at most one more than the exchanges |
| BubbleSort.BubblePass | PPD/MPI/T4/maiki.c:65-72 | one pass keeps the values, every exchange removes one inversion, and a pass without an exchange found the cells in order |
| BubbleSort.OetSort | PPD/MPI/T4/maiki.c:37-58 | the sequential odd-even sort, on an even number of cells: sorted, with as many exchanges as inversions and at most one pass more than exchanges |
| BubbleSort.TransposePairs | PPD/MPI/T4/maiki.c:41-56 | one half-pass of it |
| PhaseSpec.WindowsApart | PPD/MPI/T4/maiki.c:138-146 | the windows of two ranks of the same parity share no cell |
| PhaseSpec.WindowGetsSorted | PPD/MPI/T4/maiki.c:166-168 | after a phase every window of its parity is sorted |
| PhaseSpec.SortWindowsConserves | PPD/MPI/T4/maiki.c:165-184 | a phase keeps the values and removes exactly the inversions inside its windows |
| PhaseSpec.RoundConserves | PPD/MPI/T4/maiki.c:164-259 | a round keeps the values, and each of its swaps removes exactly one global inversion |
| PhaseSpec.QuietRound | PPD/MPI/T4/maiki.c:180-184 | a round swaps nothing exactly when all even and all odd windows are in order, and it then changes nothing |
| PhaseSpec.StableIsSorted | PPD/MPI/T4/maiki.c:179-184 | windows in order that overlap in at least one cell make the whole array sorted |
| PhaseSpec.SettledIsStable | PPD/MPI/T4/maiki.c:166-184 | where the program stops every window is in order, and the values are those of the input |
| PhaseSpec.RoundsBound | PPD/MPI/T4/maiki.c:166-184 | the program stops, after at most one round more than the input has inversions |
| PhaseSpec.SortsExactlyWithOverlap | PPD/MPI/T4/maiki.c:87-102 | the program sorts every input if and only if neighbouring ranks share at least one integer |
| PhaseSpec.NotSortedWithoutOverlap | PPD/MPI/T4/maiki.c:87-102 | with zero connected integers there is an input that comes out unsorted |
| PhaseRanks.SortPhaseRefines | PPD/MPI/T4/maiki.c:165-168 | sorting the private buffers of one parity is sorting the windows of one global array; the buffers of that parity are then the up-to-date ones |
| PhaseRanks.HandOverRestoresCoherence | PPD/MPI/T4/maiki.c:170-190 | after the exchange of the connected integers every copy of every cell is up to date again |
| PhaseRanks.NeighboursAgree | PPD/MPI/T4/maiki.c:228-232 | then the copies of the shared cells of two neighbours are equal |
| PhaseRanks.PhaseSwapsAreWindowInversions | PPD/MPI/T4/maiki.c:168-168 | what the ranks of a parity exchange in their buffers is the number of inversions of the windows of the global array |
| PhaseRanks.AllFlagsSet | PPD/MPI/T4/maiki.c:179-184 | after both phases the sum of the flags is the number of ranks exactly when neither phase swapped |
| PhaseRanks.QuietTurn | PPD/MPI/T4/maiki.c:182-184 | a turn without swaps leaves every buffer, unused cells included, as it was |
| PhaseRanks.PrintedIsTheArray | PPD/MPI/T4/maiki.c:203-217 | the first task_size cells of the ranks, one rank after the other, are the global array |
| PhaseCluster.Cluster.constructor | PPD/MPI/T4/maiki.c:131-162 | the distribution gives every rank its own values and the connected ones; the buffers are coherent |
| PhaseCluster.Cluster.Sort | PPD/MPI/T4/maiki.c:165-168 | the bubble sorts of one parity, in place, refine the phase on values |
| PhaseCluster.Cluster.Exchange | PPD/MPI/T4/maiki.c:170-190 | the hand-over from one parity to the other, in place |
| PhaseCluster.Cluster.Transfer | PPD/MPI/T4/maiki.c:186-190 | a message overwrites exactly the cells it is received into |
| PhaseCluster.Cluster.AllReduce | PPD/MPI/T4/maiki.c:180-180 | the sum equals the number of ranks exactly when all flags are 1 |
| PhaseCluster.Cluster.Turn | PPD/MPI/T4/maiki.c:166-194 | one turn of all ranks on stale and fresh copies is one round of the global array, and it is the last exactly when nobody swapped |
| PhaseCluster.Cluster.Run | PPD/MPI/T4/maiki.c:164-275 | the whole program: the output is the settled array, the sorted input if an integer is shared, after at most 1 + inversions rounds, each swap accounted for |
| PollingServer.SortPeriod | STR/ps.c:34-45 | in place: a rearrangement of the records, ordered by period and then id |
| PollingServer.VerifyPeriod | STR/ps.c:49-55 | exactly the tasks whose period starts, or that arrive, get a full budget |
| PollingServer.WantProcess | STR/ps.c:59-71 | a flag is set exactly where there is budget left and, for an aperiodic task, it has arrived and this is a polling instant; the count is zero exactly if none is set |
| PollingServer.ChooseTask | STR/ps.c:100-124 | the tick goes to the specified task, whose budget, not yet used up, drops by one; nothing else changes |
| PollingServer.GetIdleProcess | STR/ps.c:128-150 | without a request the tick goes to the first arrived aperiodic task with work, or idles |
| PollingServer.Tick | STR/ps.c:228-237 | one iteration of the tick loop refines one tick of the specification |
| PollingServer.Schedule | STR/ps.c:228-237 | the schedule written, of any length, is the specified one |
| PollingServer.Run | STR/ps.c:186-237 | a test case from its input to its schedule: every task is there with its own computation, period and arrival, every character written is the one that the rule on input and output decides, no aperiodic task is shown before it arrives or more often than it computes, and no periodic one more often than that in a period |
| PollingOutcome.ScheduleIsRuled | STR/ps.c:228-237 | in terms of the input and the characters so far alone: at a polling instant the first aperiodic task that has arrived and is not done, else the periodic task of highest priority that has not had its ticks of this period, else an aperiodic task after all, else idle |
| PollingOutcome.RuleDecides | STR/ps.c:228-237 | there is exactly one schedule of a test case that follows this rule |
| PollingOutcome.RuleBounds | STR/ps.c:49-55 | whatever follows it shows no aperiodic task before it arrives or more often than it computes, and no periodic one more often than that within a period |
| PollingOutcome.ShortOnlyUnderLoad | STR/ps.c:100-124 | while a periodic task has not had all its ticks of the period, no tick idles, goes to the background or to a periodic task after it |
| PollingOutcome.PeriodicBalance | STR/ps.c:49-55 | the ticks that show a periodic task since its period began, and the budget it has left, make up its computation time, so that all are shown exactly when nothing is left |
| PollingServer.SortedSetIsTaskSet | STR/ps.c:194-225 | the sorted records have distinct ids and strictly falling priority, with the server's period on every aperiodic task |
| PollingSpec.PickIsHighestPriority | STR/ps.c:100-150 | who gets a tick: at a polling instant the arrived aperiodic task with budget of least id, else the periodic task with budget of least period and id, else the arrived aperiodic task with budget of least id, else nobody |
| PollingSpec.IdleExactlyWhenNothingIsPending | STR/ps.c:145-147 | a tick idles exactly when no released task has budget left |
| PollingSpec.SlotsComeFromTheBudget | STR/ps.c:107-117 | between two releases every tick given to a task is taken from its budget; no budget is decremented below zero |
| PollingSpec.PeriodicConservation | STR/ps.c:49-55 | ticks since the last release plus the remaining budget of a periodic task are its computation time, at every instant of every run |
| PollingSpec.AperiodicConservation | STR/ps.c:128-143 | an aperiodic task gets nothing before it arrives; afterwards its ticks and what is left are its computation time |
| PollingAnalysis.GrantsBound | STR/ps.c:49-55 | from a fresh start a task gets at most what its releases grant it |
| PollingAnalysis.BusyStretch | STR/ps.c:100-124 | in a stretch without a dry instant every tick is work of the tasks considered or a poll |
| PollingAnalysis.RunsDry | STR/ps.c:228-237 | from a fresh start the tasks up to i run dry within any stretch their demand fits in |
| PollingAnalysis.ResponseTime | STR/ps.c:49-71 | a budget granted to task i is used up within such a stretch, and stays used up until the next release, in every run and for every aperiodic load |
| PollingAnalysis.FittingIsSafe | STR/ps.c:228-237 | tasks whose demands fit meet every release under every load |
| PollingAnalysis.UnfittingMisses | STR/ps.c:105-111 | if the demand of i does not fit while the tasks before it are safe, some load makes i miss |
| PollingAnalysis.ExactTest | STR/ps.c:228-237 | the periodic tasks up to i meet every release under every aperiodic load if and only if the demand of each of them that computes at all fits a stretch no longer than the period |
| PollingAnalysis.ClosedFormIsSafe | STR/ps.c:228-237 | c_i plus c_j * (1 + ceil(p_i / p_j)) over the tasks of higher priority plus ceil(p_i / p_ps) within p_i is sufficient |
| PollingAnalysis.ClosedFormIsNotNecessary | STR/ps.c:228-237 | a task set that is safe although the closed form fails |
| Merging.MergedSorts | PPD/MPI/T3/dc.c:39-66 | merging two sorted parts sorts the whole |
| Merging.Merge | PPD/MPI/T3/dc.c:39-53 | the merge of array[begin..mid] and array[mid..end], in place, left on ties; the other cells stay |
| Merging.SortRange | PPD/MPI/T3/dc.c:56-66 | the recursive sort of a range, in place |
| BinomialTree.ChildOf | PPD/MPI/T3/dc.c:72-72 | rank + 2^level is a rank, and it gets its task at that level from no other rank |
| BinomialTree.BlockSplits | PPD/MPI/T3/dc.c:71-75 | a block is what stays followed by what is sent |
| BinomialTree.StartIsReversed | PPD/MPI/T3/dc.c:71-76 | rank r holds at level l the input block whose number is r with its l binary digits reversed |
| BinomialTree.LeafBlocksPartition | PPD/MPI/T3/dc.c:219-232 | each of the np leaf blocks belongs to exactly one rank |
| BinomialProof.StepKeepsInv | PPD/MPI/T3/dc.c:68-87 | every step of every rank, whichever source a receive matches, keeps what each rank holds and what each channel carries |
| BinomialProof.MessageInto | PPD/MPI/T3/dc.c:219-232 | a message on its way to a rank is its own task or level from its parent, or the sorted block of one of its children |
| BinomialProof.NodeReply | PPD/MPI/T3/dc.c:81-87 | a reply taken from any child keeps the prefix sorted and equal, as a multiset, to what has come back so far |
| BinomialRuns.GuardsAgree | PPD/MPI/T3/dc.c:188-189 | the root's comparison of sizes and the other ranks' count both end the fan-in exactly when all children have replied |
| BinomialRuns.LeafWork | PPD/MPI/T3/dc.c:177-182 | the part a rank sorts itself is its leaf block, sent by its parent |
| BinomialRuns.StepUsesOne | PPD/MPI/T3/dc.c:177-189 | every step uses up exactly one of the steps that are left |
| BinomialRuns.RunLength | PPD/MPI/T3/dc.c:177-254 | all runs have the same length |
| BinomialRuns.NeverStuck | PPD/MPI/T3/dc.c:68-87 | until all are done some step can be taken, even if every send waits for its receiver |
| BinomialRuns.RunSorts | PPD/MPI/T3/dc.c:177-254 | every complete run, for every order of arrivals, leaves the sorted input at the root, all ranks done and no message on its way |
| BinomialRuns.EndsExactly | PPD/MPI/T3/dc.c:177-254 | a complete run has all ranks done if and only if there is a value to sort or only one rank, and then the root holds the sorted input |
| BinomialRuns.EmptyInputHangs | PPD/MPI/T3/dc.c:219-235 | with no values and two or more ranks no run ever ends: the other ranks wait for a task |
| BinomialWorker.Worker.ProcessD | PPD/MPI/T3/dc.c:69-78 | the upper half and the next level go to rank + 2^level; the lower half stays |
| BinomialWorker.Worker.ProcessC | PPD/MPI/T3/dc.c:81-87 | a received sorted part is merged into the own one, in place |
| BinomialWorker.Worker.SortOwn | PPD/MPI/T3/dc.c:237-238 | the own part is sorted in place |
| BinomialWorker.SplitIsTwoSteps | PPD/MPI/T3/dc.c:69-78 | the two steps of the machine that hand out a half leave, send and count what processD does |
| BinomialWorker.MergeIsStep | PPD/MPI/T3/dc.c:81-87 | a reply is taken while one is due, merged as processC does it, one reply less is due, and its channel, and no other, is shorter by it |
| BinomialWorker.SortIsStep | PPD/MPI/T3/dc.c:237-238 | a part is sorted once it is no larger than the task, and keeps its values and the replies due |
| PipelineStage.ShiftIn | PPD/MPI/T2/pipeline.c:122-132 | the inner loop, in place: a value changes places with every greater kept one |
| PipelineStage.InsertionSort | PPD/MPI/T2/pipeline.c:86-96 | the sequential insertion sort |
| PipelineStage.ShiftSorts | PPD/MPI/T2/pipeline.c:122-132 | sorted kept values stay sorted, and the greatest value is carried out |
| PipelineStage.StageSplits | PPD/MPI/T2/pipeline.c:120-141 | what a stage keeps and forwards is what it took; the kept values are sorted and not greater than anything forwarded |
| PipelineStage.KeptThenForwarded | PPD/MPI/T2/pipeline.c:120-141 | a stage keeps the smallest ts of its values, and sorting what it forwards gives the rest of the sorted values |
| PipelineStage.TakeNext | PPD/MPI/T2/pipeline.c:121-140 | one more value: one shift of the kept ones, and the carried value is forwarded once ts are kept |
| PipelineProof.NextIsData | PPD/MPI/T2/pipeline.c:168-171 | framing by count: while a stage still takes values, the next message for it is its next value, even if that value is -1 |
| PipelineProof.TokenIsEnd | PPD/MPI/T2/pipeline.c:193-197 | a stage that waits for its signal finds -1, and it is its turn to print |
| PipelineProof.StepKeepsInv | PPD/MPI/T2/pipeline.c:112-244 | every step of every stage, in any interleaving, keeps the invariant |
| PipelineRuns.KeptIsSlice | PPD/MPI/T2/pipeline.c:209-225 | what stage r ends up with is positions r*ts .. (r+1)*ts of the sorted input |
| PipelineRuns.Conservation | PPD/MPI/T2/pipeline.c:120-141 | in every reachable state the unread input, the values the stages hold and those on their way, at the heads of their channels, are the input, as a multiset |
| PipelineRuns.OutputSoFar | PPD/MPI/T2/pipeline.c:146-158 | in every reachable state the output is a prefix of the sorted input, and a stage past its loop holds its slice |
| PipelineRuns.StepProgresses | PPD/MPI/T2/pipeline.c:112-244 | every step lowers the remaining steps of its stage, and so of all, and leaves every other stage as it was |
| PipelineRuns.RunLength | PPD/MPI/T2/pipeline.c:112-244 | no run is longer than a number fixed by the configuration |
| PipelineRuns.NeverStuck | PPD/MPI/T2/pipeline.c:139-162 | until all stages are done some step can be taken, even if every send waits for its receiver |
| PipelineRuns.RunSorts | PPD/MPI/T2/pipeline.c:112-244 | every complete run has printed exactly the sorted input, in order |
| RankSort.RankSort | PPD/MPI/T1/master-slave.c:43-53 | in place: every value is written to the cell its rank names; unnamed cells keep what they held |
| RankSort.RankOf | PPD/MPI/T1/master-slave.c:46-50 | the inner loop counts the smaller values |
| RankSort.RankIsPosition | PPD/MPI/T1/master-slave.c:46-51 | in the sorted arrangement, duplicates or not, a value stands where its rank says |
| RankSort.RanksAreBijective | PPD/MPI/T1/master-slave.c:43-53 | on distinct values of any number the ranks are a bijection onto the indices |
| RankSort.RankedSorts | PPD/MPI/T1/master-slave.c:43-53 | on distinct values the output is the sorted input, whatever it held before |
| RankSort.DuplicatesLeaveACell | PPD/MPI/T1/master-slave.c:48-51 | two equal values leave some cell unwritten |
| RankSort.RankSortExactly | PPD/MPI/T1/master-slave.c:43-53 | the output is the sorted input for every prior content if and only if the values are distinct |
| MasterSlaveWorker.Master.SendTask | PPD/MPI/T1/master-slave.c:141-145 | the chunk sent is the next tasks_size values, and the counters stay balanced |
| MasterSlaveWorker.Master.Receive | PPD/MPI/T1/master-slave.c:146-159 | a reply is copied behind the result and merged into it, in place; the first one is only copied |
| MasterSlaveWorker.SendIsStep | PPD/MPI/T1/master-slave.c:141-145 | the machine sends the chunk that SendTask returns, and counts the same |
| MasterSlaveWorker.ReceiveIsStep | PPD/MPI/T1/master-slave.c:146-160 | the machine makes of a reply, the first one included, what Receive leaves |
| MasterSlaveProof.StepKeepsInv | PPD/MPI/T1/master-slave.c:130-200 | every step, whichever slave is next to finish, keeps the counters and the whereabouts of every chunk |
| MasterSlaveProof.StepKeepsContent | PPD/MPI/T1/master-slave.c:144-160 | with distinct values inside every chunk the merged part is sorted and made of exactly the chunks received |
| MasterSlaveRuns.BooksBalance | PPD/MPI/T1/master-slave.c:139-166 | sent = received + to receive, and no slave has more than one chunk |
| MasterSlaveRuns.StepProgresses | PPD/MPI/T1/master-slave.c:130-200 | every step lowers a measure |
| MasterSlaveRuns.RunLength | PPD/MPI/T1/master-slave.c:130-200 | so that no run is longer than a number fixed by the configuration |
| MasterSlaveRuns.NeverStuck | PPD/MPI/T1/master-slave.c:145-200 | if every chunk starts above -1 some step can be taken until all is done, even if every send waits for its receiver |
| MasterSlaveRuns.CompletesExactly | PPD/MPI/T1/master-slave.c:190-199 | complete runs end with everybody stopped if and only if every chunk starts above -1; otherwise the master waits for ever |
| MasterSlaveRuns.RunSorts | PPD/MPI/T1/master-slave.c:130-200 | with distinct values inside every chunk a run that ends has the sorted input at the master |
| MasterSlaveStale.StaleInRanked | PPD/MPI/T1/master-slave.c:43-53 | a chunk with a repeated value gives back a value that the output array held before |
| MasterSlaveStale.RepeatedValueSpoils | PPD/MPI/T1/master-slave.c:140-165 | if one of the first chunks repeats a value and the output arrays start full of a value that is no input, every run that gets to its end has that value in its result |
| MasterSlaveStale.Complete | PPD/MPI/T1/master-slave.c:130-200 | every run whose chunks start above -1 can be carried on to its end |
| MasterSlaveStale.FarmFails | PPD/MPI/T1/master-slave.c:130-200 | so there are a start and a complete run that leave such an input unsorted |
| RankSort.RankedCells | PPD/MPI/T1/master-slave.c:43-53 | the output cell by cell: the sorted value, or, at a position that repeats its left neighbour, what the array held before |
| RankSort.RightExactlyWhenFilled | PPD/MPI/T1/master-slave.c:43-53 | the output is the sorted chunk if and only if the array holds the repeated values at their positions already |
| MasterSlaveMass.MergedFromSorted | PPD/MPI/T1/master-slave.c:56-70 | a merge in order was made of parts in order: a reply out of order is never repaired |
| MasterSlaveMass.AnswerWeighs | PPD/MPI/T1/master-slave.c:43-53 | an answer in order sums up to at least its chunk, and to as much only if it is the sorted chunk |
| MasterSlaveMass.HarmStays | PPD/MPI/T1/master-slave.c:130-200 | no step undoes disorder or excess weight, and at the end either shows as a wrong result |
| MasterSlaveExact.WrongAnswerSpoils | PPD/MPI/T1/master-slave.c:146-160 | one wrong answer spoils every run that goes on from it to its end |
| MasterSlaveExact.RunSortsExactly | PPD/MPI/T1/master-slave.c:130-200 | a complete run leaves the sorted input if and only if every answer in it is the sorted chunk |
| MasterSlaveExact.RunKeepsPlaces | PPD/MPI/T1/master-slave.c:140-165 | in every run, up to the first chunk that is not right, every slave sorts its chunk over its right answer to a chunk that may precede it |
| MasterSlaveSchedule.Follows | PPD/MPI/T1/master-slave.c:140-165 | any chunk can be given to the slave that has just answered any chunk that may precede it: with two or more slaves any earlier one, with one the one before |
| MasterSlaveSchedule.WrongChunkFails | PPD/MPI/T1/master-slave.c:130-200 | an input with a chunk that is not right has a start and a complete run that leave it unsorted |
| MasterSlaveSchedule.FarmSortsExactly | PPD/MPI/T1/master-slave.c:130-200 | for every input whose chunks start above -1: all complete runs from all starts sort if and only if the first chunks, one for each slave, repeat no value, and each later chunk repeats one only at positions where every chunk that may precede it has the same value |
| MasterSlaveSchedule.UnharmedFarm | PPD/MPI/T1/master-slave.c:130-200 | 1, 1 after 0, 1 goes through the farm unharmed |
| MasterSlaveSchedule.HarmedFarm | PPD/MPI/T1/master-slave.c:130-200 | 5, 5 after 1, 2 does not |
| MasterSlaveSchedule.HarmedAnswer | PPD/MPI/T1/master-slave.c:43-53 | the answer there is 5, 2 |
| MasterSlaveStale.UnharmedRepeat | PPD/MPI/T1/master-slave.c:43-53 | a repeated value is unharmed where the array holds the right value already |
| PhilosophersProof.StepKeepsInv | SYSOP/src/threads/main.c:89-110 | every step of any thread keeps the invariant of forks, semaphore, reports and start-up |
| PhilosophersProof.PhilEffect | SYSOP/src/threads/main.c:89-110 | a step of a philosopher touches its own report, forks, and the semaphore exactly as it passes it, and its report counts exactly the tries at a held fork, its own or the right one, and the meals |
| PhilosophersProof.ForksHaveOneHolder | SYSOP/src/threads/main.c:90-98 | a mutex is held by a philosopher exactly when its program point says so; it never has two holders |
| PhilosophersProof.NeighboursNeverEatTogether | SYSOP/src/threads/main.c:89-101 | two neighbours, p and (p + 1) mod n, never eat at once; a philosopher alone never eats, as its two forks are one |
| PhilosophersProof.AtMostHalfEat | SYSOP/src/threads/main.c:89-101 | at most half of the philosophers eat at once |
| PhilosophersProof.TableIsLaid | SYSOP/src/threads/main.c:103-106 | whoever has passed the semaphore finds all n records and forks set up |
| PhilosophersProof.ForksAreThereWhenTouched | SYSOP/src/threads/main.c:138-146 | no fork is touched before all exist or once their destruction has begun |
| PhilosophersProof.UntouchedBeforeTheFeast | SYSOP/src/threads/main.c:120-132 | until the start-up is over every fork is free |
| PhilosophersProof.MealsAndThoughts | SYSOP/src/threads/main.c:67-74 | meals minus thoughts of a philosopher is 0 or 1, and 1 exactly between its meal and its thought |
| PhilosophersProof.EndOfTheDinner | SYSOP/src/threads/main.c:138-146 | when the mutexes are destroyed all threads have ended, all forks are free, and every meal has been thought about |
| PhilosophersRuns.DinnerIsSafe | SYSOP/src/threads/main.c:112-146 | for every n >= 1 and in every state of every interleaving: at most half eat and never two neighbours, meals minus thoughts is 0 or 1, every fork has one holder and is in use only while all exist, at the end all are back, and every report counts what happened |
| PhilosophersRuns.ReportsCount | SYSOP/src/threads/main.c:67-101 | over every run, the attempts of a philosopher are its tries at a held fork, its own or the right one, and its meals and thoughts the times it got both, save what it is about to write down |
| PhilosophersRuns.MealWithinReach | SYSOP/src/threads/main.c:89-110 | for n >= 2, from every reachable state while fim is set there is a continuation in which any chosen philosopher eats once more |
| PhilosophersRuns.MealExactly | SYSOP/src/threads/main.c:89-110 | a meal of a philosopher is within reach if and only if there are two or more |
| PhilosophersRuns.LockstepRound | SYSOP/src/threads/main.c:89-93 | from a table at rest there is a round of five steps each after which everybody is back with one more attempt and no meal |
| PhilosophersRuns.LockstepWithinReach | SYSOP/src/threads/main.c:89-110 | a table at rest is within reach of every state while fim is set |
| PhilosophersRuns.NobodyNeedsToEat | SYSOP/src/threads/main.c:89-93 | meals are not guaranteed by fairness: for every k there is a run in which each philosopher tries k times in vain |
| PhilosophersRuns.EveryStepEnds | SYSOP/src/threads/main.c:107-108 | once fim is cleared every step of any thread comes closer to the end |
| PhilosophersRuns.DinnerEnds | SYSOP/src/threads/main.c:135-142 | so every continuation is bounded |
| PhilosophersRuns.NeverStuck | SYSOP/src/threads/main.c:103-142 | no state but the last is stuck: neither the semaphore nor a join waits for ever on its own |
| Mcs51Alu.AddIsAddition | VLSI2/8051/i8051_alu.vhd:68-104 | the adder split into 4, 3 and 1 bits gives sum, carry and auxiliary carry of the plain addition |
| Mcs51Alu.AddOverflows | VLSI2/8051/i8051_alu.vhd:103-103 | its overflow is two's complement overflow |
| Mcs51Alu.SubIsSubtraction | VLSI2/8051/i8051_alu.vhd:108-144 | the split subtractor gives difference, borrow and auxiliary borrow |
| Mcs51Alu.SubOverflows | VLSI2/8051/i8051_alu.vhd:143-143 | its overflow is two's complement overflow |
| Mcs51Alu.SubUndoesAdd | VLSI2/8051/i8051_alu.vhd:68-144 | subtracting the same operand with the same carry undoes an addition, and borrows exactly if it carried |
| Mcs51Alu.DoDiv | VLSI2/8051/i8051_alu.vhd:167-210 | the eight rounds of shift and subtract give quotient and remainder for every divisor but zero, where the overflow is set; the bit the shift drops is always zero |
| Mcs51Alu.AdjustsExactly | VLSI2/8051/i8051_alu.vhd:214-234 | DA after an addition of decimal bytes leaves the decimal sum if and only if the sum is below 100 or at least 160 |
| Mcs51Alu.FiftyAndFifty | VLSI2/8051/i8051_alu.vhd:227-230 | 50 + 50 is left as the byte A0 without a carry |
| Mcs51Ram.ReadAfterWrite | VLSI2/8051/i8051_ram.vhd:71-129 | a byte read is the last one written to the same cell, through any alias; a port is read at its pins |
| Mcs51Ram.Aliases | VLSI2/8051/i8051_ram.vhd:95-126 | an address above 127 that is no register stands for the cell of its lower seven bits |
| Mcs51Ram.WritesCommute | VLSI2/8051/i8051_ram.vhd:102-129 | writes to different cells can be swapped |
| Mcs51Ram.RamUnit.constructor | VLSI2/8051/i8051_ram.vhd:191-221 | what reset clears, and arbitrary contents where it leaves the cells, the stack pointer, the ports and the output undefined |
| Mcs51Ram.RamUnit.Get | VLSI2/8051/i8051_ram.vhd:71-98 | the byte at an address, ports at their pins |
| Mcs51Ram.RamUnit.Set | VLSI2/8051/i8051_ram.vhd:102-129 | exactly the addressed cell, register or port latch changes |
| Mcs51Ram.RamUnit.Clock | VLSI2/8051/i8051_ram.vhd:223-246 | one access an edge: a read wins over a write and shows at the output after the edge |
| Mcs51Isa.PswRoundTrip | VLSI2/8051/i8051_ctr.vhd:133-158 | loading the status word into the eight flags and storing it again changes nothing |
| Mcs51Isa.PswStored | VLSI2/8051/i8051_ctr.vhd:133-158 | and the other way round |
| Mcs51Fetch.FetchEdge | VLSI2/8051/i8051_ctr.vhd:330-394 | each clock of the fetch: requests, latencies of one clock, and the program counter in the ALU |
| Mcs51Fetch.NineClocks | VLSI2/8051/i8051_ctr.vhd:321-394 | nine clocks from an instruction boundary the three bytes, the accumulator and the status word are loaded and the program counter is past the instruction, whatever the don't-cares |
| Mcs51Execute.LoadRuns | VLSI2/8051/i8051_ctr.vhd:561-575 | an operand from a register, a direct address or through a register arrives after 2, 2 or 4 clocks, and nothing else has changed |
| Mcs51Execute.ArithRuns | VLSI2/8051/i8051_ctr.vhd:466-507 | ADD, ADDC, SUBB: accumulator and status word take the ALU's sum and flags |
| Mcs51Execute.CompareRuns | VLSI2/8051/i8051_ctr.vhd:1206-1257 | CJNE: branch if different, carry if less |
| Mcs51Execute.CountRuns | VLSI2/8051/i8051_ctr.vhd:1936-1985 | DJNZ: count down, branch if not zero |
| Mcs51Execute.StoreRuns | VLSI2/8051/i8051_ctr.vhd:2739-3180 | MOV_1 to MOV_12: exactly the target takes the source |
| Mcs51Sequences.CallRuns | VLSI2/8051/i8051_ctr.vhd:2652-2697 | ACALL and LCALL: the return address goes on the stack, low byte first, and control to the target |
| Mcs51Sequences.ReturnRuns | VLSI2/8051/i8051_ctr.vhd:3996-4038 | RET: the program counter takes the two bytes on top |
| Mcs51Sequences.PushRuns | VLSI2/8051/i8051_ctr.vhd:3949-3988 | PUSH, the operand read before the stack pointer moves |
| Mcs51Sequences.PopRuns | VLSI2/8051/i8051_ctr.vhd:3904-3943 | POP, the stack pointer written before the target |
| Mcs51Transfers.JumpRuns | VLSI2/8051/i8051_ctr.vhd:2367-2406 | JC, JNC, JZ, JNZ, SJMP |
| Mcs51Transfers.GotoRuns | VLSI2/8051/i8051_ctr.vhd:2704-2732 | AJMP, LJMP |
| Mcs51Transfers.ExchangeRuns | VLSI2/8051/i8051_ctr.vhd:4549-4625 | XCH with a register or a direct address |
| Mcs51Transfers.ThroughRuns | VLSI2/8051/i8051_ctr.vhd:4629-4668 | XCH through a register |
| Mcs51Transfers.StoreThroughRuns | VLSI2/8051/i8051_ctr.vhd:3187-3220 | MOV_13: the accumulator goes to the address in a register |
| Mcs51Transfers.ProductRuns | VLSI2/8051/i8051_ctr.vhd:3503-3543 | MUL and DIV: both bytes and the overflow; a division by zero leaves what the ALU happened to show |
| Mcs51Transfers.AdjustRuns | VLSI2/8051/i8051_ctr.vhd:1677-1714 | DA |
| Mcs51Meaning.EightClocks | VLSI2/8051/i8051_ctr.vhd:402-4961 | for each of the 50 modelled instruction classes the eight clocks of execution carry out its register transfers, with flags stated in plain arithmetic |
| Mcs51Decoding.DecodeAgrees | VLSI2/8051/i8051_dec.vhd:28-139 | the chain of bit patterns and the opcode map by rows and columns give the same instruction and length for every opcode |
| Mcs51Decoding.ClassBytes | VLSI2/8051/i8051_dec.vhd:28-139 | a third byte never comes without a second one |
| Mcs51Runs.FetchesInstruction | VLSI2/8051/i8051_ctr.vhd:351-386 | what has been fetched is the instruction at the program counter, and the counter is past it |
| Mcs51Runs.SeventeenClocks | VLSI2/8051/i8051_ctr.vhd:321-4961 | 17 clocks take one instruction boundary to the next, no access pending, and the program counter, the RAM and the registers change by the register transfers of the instruction |
| Mcs51Runs.ProgramRuns | VLSI2/8051/i8051_ctr.vhd:248-4964 | for every program memory, memory, noise and number of instructions the chip follows the instruction-level machine, up to the first opcode outside the model |
| Mcs51Runs.NoCases | VLSI2/8051/i8051_dec.vhd:28-140 | the eight opcodes that decode to something the controller has no case for |
| Mcs51Runs.NoCaseHangs | VLSI2/8051/i8051_ctr.vhd:4961-4962 | on these the chip never reaches an instruction boundary again, and the memory stays |
| Mcs51Runs.ResetStarts | VLSI2/8051/i8051_ctr.vhd:281-313 | six clocks after reset: program counter 0, stack pointer 7, ports high, nothing else written |
| Mcs51Stack.ExecKeeps | VLSI2/8051/i8051_ctr.vhd:414-459 | an instruction that stays on the stack and does not store over it leaves on it exactly what it pushed |
| Mcs51Stack.RunKeeps | VLSI2/8051/i8051_ctr.vhd:414-459 | so does any run of such instructions, nested calls, PUSH and POP included |
| Mcs51Stack.CallReturns | VLSI2/8051/i8051_ctr.vhd:3996-4038 | a call, any balanced run and a return: the program is at the instruction after the call, with the stack pointer and all bytes below restored, as long as the stack stays inside internal RAM |
| Mcs51Stack.ReturnsExactly | VLSI2/8051/i8051_ctr.vhd:2652-2697 | anywhere in the address space a return right after a call comes back if and only if both bytes of the return address can be read back |
| Mcs51Stack.DeepCallIsLost | VLSI2/8051/i8051_ram.vhd:117-118 | at stack pointer 127 the return address falls on port 0 and the stack pointer, and a call from below 8100 is lost |
| Mcs51Comments.CommentsExactly | VLSI2/8051/i8051_ctr.vhd:402-4961 | PUSH, POP, ACALL, LCALL, RET and DJNZ, whose comments make several transfers, do what these do in their order if and only if that order is free; of the other instructions nothing is claimed here |
| Mcs51Comments.PushExactly | VLSI2/8051/i8051_ctr.vhd:3945-3988 | PUSH: if and only if, for the stack pointer as operand, it is 80, and for another operand the top is not the stack pointer or the operand is 81 |
| Mcs51Comments.PopExactly | VLSI2/8051/i8051_ctr.vhd:3900-3943 | POP: if and only if it does not go to the stack pointer |
| Mcs51Comments.CallExactly | VLSI2/8051/i8051_ctr.vhd:2645-2697 | ACALL and LCALL: everywhere but at the stack pointers 7F and 80, and there for the return addresses given |
| Mcs51Comments.ReturnOrderExactly | VLSI2/8051/i8051_ctr.vhd:3990-4038 | RET: if and only if the stack pointer is not 82 |
| Mcs51Comments.CountExactly | VLSI2/8051/i8051_ctr.vhd:1989-2040 | DJNZ: unless a port whose pins show 0 or 1 is counted and the offset is not 0 |
| Mcs51Comments.StackPointerAsOperand | VLSI2/8051/i8051_ctr.vhd:3904-3988 | PUSH of the stack pointer stores its old value and the comments' order the new one; POP to it keeps the byte taken off and the comments' order one less |
| Mcs51Comments.PushWitness | VLSI2/8051/i8051_ctr.vhd:3945-3988 | PUSH ACC at stack pointer 80 and PUSH SP at 7 differ |
| Mcs51Comments.PopWitness | VLSI2/8051/i8051_ctr.vhd:3900-3943 | POP SP differs |
| Mcs51Comments.CallWitness | VLSI2/8051/i8051_ctr.vhd:2645-2697 | calls from 0102 at stack pointers 7F and 80 differ |
| Mcs51Comments.ReturnWitness | VLSI2/8051/i8051_ctr.vhd:3990-4038 | RET at stack pointer 82 differs |
| Mcs51Comments.CountWitness | VLSI2/8051/i8051_ctr.vhd:1989-2040 | DJNZ P0 with pins at 1 differs |
| Mcs51Results.AddResult | VLSI2/8051/i8051_alu.vhd:68-104 | ADD and ADDC in memory: accumulator and bit 7 of the status word are the sum, bit 6 is the carry of the lower digits, bit 2 the signed overflow, and no other bit or byte changes |
| Mcs51Results.SubbResult | VLSI2/8051/i8051_alu.vhd:108-144 | SUBB in memory, with borrows |
| Mcs51Results.MulResult | VLSI2/8051/i8051_alu.vhd:148-163 | MUL: register B and the accumulator together are the product, and bit 2 of the status word is set if and only if it exceeds a byte |
| Mcs51Results.DivResult | VLSI2/8051/i8051_alu.vhd:167-210 | DIV: quotient and remainder, and bit 2 of the status word is set if and only if there are none |
| Mcs51Results.DaResult | VLSI2/8051/i8051_alu.vhd:214-234 | DA on every accumulator and all flags: what it adds, and the carry that is lost past bit 8 |
| Mcs51Results.BranchResult | VLSI2/8051/i8051_alu.vhd:39-55 | JC, JNC, JZ, JNZ and SJMP: taken, the program counter moves by the offset in two's complement, backwards for 80 and more, modulo 2^16; not taken, it stays |
| Mcs51Results.CjneResult | VLSI2/8051/i8051_ctr.vhd:1206-1257 | CJNE moves the program counter so exactly if the two differ; bit 7 of the status word is set if and only if the left one is smaller, and nothing else changes |
| Mcs51Results.DjnzResult | VLSI2/8051/i8051_ctr.vhd:1936-1985 | DJNZ counts down, from 0 to FF, and moves the program counter so unless that is zero |
| Mcs51Results.PageResult | VLSI2/8051/i8051_ctr.vhd:87-92 | AJMP and ACALL keep the upper five bits of the program counter and take the lower eleven from the instruction |
| Mcs51Results.BankSelected | VLSI2/8051/i8051_ctr.vhd:125-149 | the register bank begins at eight times the number in bits 4 and 3 of the status word |
| Mcs51Results.RegisterAddress | VLSI2/8051/i8051_ctr.vhd:125-128 | instructions on Rn, at the instruction level and in the controller, work on cell 8 * (2 * rs1 + rs0) + n |
| Mcs51Results.ThroughAddress | VLSI2/8051/i8051_ctr.vhd:132-135 | instructions through R0 or R1 find the address there |
| Mcs51Results.RegisterMoves | VLSI2/8051/i8051_ctr.vhd:2739-2790 | MOV A,Rn and MOV Rn,A move between the accumulator and that cell, and touch no other |
| Mcs51Results.BytesFetched | VLSI2/8051/i8051_ctr.vhd:167-171 | the bytes of an instruction lie one after the other in 4 KB that wrap around |
| Mcs51Results.GoesOn | VLSI2/8051/i8051_alu.vhd:59-64 | an instruction that is no jump, call or return goes on behind its own bytes, modulo 2^16 |
| Mcs51Results.CallResult | VLSI2/8051/i8051_ctr.vhd:2652-2697 | a call stores the lower byte of the return address above the stack and the upper byte above that, in no other cell, and moves the stack pointer by two |
| Mcs51Results.ReturnResult | VLSI2/8051/i8051_ctr.vhd:3996-4038 | a return takes them from there |
| Mcs51Results.PushPopResult | VLSI2/8051/i8051_ctr.vhd:3904-3988 | PUSH of a cell stores it above the stack, POP to one takes what is on top; the stack pointer moves by one, and nothing else changes |
| Mcs51Results.ExchangeResult | VLSI2/8051/i8051_ctr.vhd:4549-4625 | XCH of a cell: it and the accumulator change places |
| Mcs51Board.Board.constructor | VLSI2/8051/i8051_ctr.vhd:250-266 | reset of the wired chip: the controller's registers, the cleared registers of the memory, and arbitrary values for the rest |
| Mcs51Board.Board.Clock | VLSI2/8051/i8051_all.vhd:175-233 | one edge of all units at once, each seeing the signals as they were before |
| Mcs51Board.Board.Instruction | VLSI2/8051/i8051_ctr.vhd:321-4961 | seventeen edges of the object carry out one instruction |

## Left out

- Reading files, printing to a terminal, timing, MPI start-up and clean-up, and failing allocations: the
  input is given, the output is a value.
- C's integer width, its array bounds on undersized inputs and its stack limits.
- Phase sort: an odd number of ranks, a size that is no multiple of it, more shared than own integers, and
  `oetSort` on an odd size; there the program reaches past its array or its last rank. The token that
  orders the printing of the ranks is the subject of the pipeline model; here they print in rank order.
- Tree sort: numbers of ranks that are no power of two, and `pow` in floating point, which is taken as exact.
- Pipeline and farm: sizes that are no multiple of the number of stages or tasks. The farm has at least
  one value a chunk.
- Scheduler: the preemption and context-switch counters, the server capacity and the deadlines, which are
  read but not used. At most 26 tasks, and a result array as long as the run, are preconditions.
- Philosophers: failing thread creation and joins, and the time that eating and thinking take.
- Philosophers, and the machines of the sorters: shared memory is accessed in whole steps, weaker memory
  orders are not modelled. The lists of the machines are values, the local work on arrays is tied to them
  by the methods and classes beside them.
- 8051: bit addressing and the instructions on bits, INC, DEC, the logic and rotate instructions, CLR, CPL,
  SWAP, XCHD, JMP, MOVC, MOV_14 to MOV_18, pins that change during an instruction, the debug entities, the
  test bench and the shipped program memory. Decoding them, too: they count as opcodes outside the model.
- 8051: the controller is a function from state to state rather than an object with assignments; what is
  lost is the order of assignments to one signal within an edge, of which the last one counts.
- Mcs51Runs.NoCaseHangs: says that no boundary comes back, not what a later reset does.
- The rest of the repository: socket and packet programs, image resampling, the Wishbone bridge, Simulink,
  CAD and tool data.
