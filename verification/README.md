# Verified models of OS_Design

This project models, in Dafny 4.11, the three concurrent or stateful cores of the
repository and proves what they compute.

- **Parallel transitive closure** (`Project_1/Stuff`). Four drivers apply Warshall's rule
  to one shared matrix. `Closure` relates the rounds to paths, for full and for partial
  covers; `Matrix` holds the flat matrix and one round on it; `Sync` holds semaphores,
  barriers and counting.
  `HandBarrier*` is `wtc_proc_test.c` with its semaphore-built barrier, `BagOfTasks*` is
  `wtc_btproc.c`, `StaticColumns*` is `wtc_proc.c`, `BitArray` and `PackedRows*` are
  `bit_char.c` and `wtc_thr.c`. `TwoBarriers` is the round protocol the bag and the threaded
  driver share.
- **Scheduler** (`Project_2/stuff/sched.c`). `WaitQueue` is the run queue, `try_to_wake_up`
  and `__wake_up_common`; `Completion*` is `complete` and `wait_for_completion`; `IdleCpu` is
  `goodness` and `reschedule_idle`, `CpuTable` the per-CPU table they read; `Picker` is the `choose_task` loop of `schedule`.
- **Remote read** (`Project_3`). `ChunkedRead` is the framing loop of `server_read` and the
  reassembly loop of `client_read` against `hello_read`.

## How the programs are modelled

A concurrent driver is a transition system. Each actor (child, worker, parent) has a program
counter; one step is what a semaphore or mutex makes atomic. In `HandBarrier` every semaphore
operation is its own step. A run is an arbitrary sequence of actor numbers: an actor that is
blocked or has finished does nothing when it is scheduled. Statements about `Reached(p, sched)`
therefore hold for every interleaving, every number of vertices and every number of children.
The `*Machine` modules are the same programs as classes that update the shared variables in
place, one turn at a time; their `Execute` is proved equal to the transition system's run.
Sequential loops (`UpdateColumn`, `SetQueue`, `QueuePop`, `ChildCompute`, `WakeUpCommon`,
`ScanCpus`, `ChooseTask`, `ServerRead`, `ClientRead`) are methods with the loops of the source.

Assumptions about code outside the repository: semaphores, mutexes and library barriers have
their usual contracts; `TASK_RUNNING` is 0 and the other task states are separate bits; entries
are added to wait queues and the run queue at the head or tail as the macro names say;
`task_on_runqueue` means being linked into the run queue; `task_set_cpu` records a CPU in a task;
`init_idle` runs on each CPU's own idle task, and `get_cycles` stays below the sentinel;
`pread` is short only at the end of the file and one `recv` returns one `send`.

## Where the code falls short of its purpose

- A static partition covers `T * (n / T)` of the `n` columns or rows. `wtc_proc`,
  `wtc_proc_test` and `wtc_thr` compute the closure of every graph exactly when `T` divides `n`
  or `n <= 1`. For every other `T` the printed matrix is characterised exactly: uncovered cells
  are the input edges, covered ones say whether a path exists whose uncovered intermediate
  vertices come in descending order first (columns) or in ascending order last (rows).
- With a second user on the list whose first process has a credit, `schedule` dispatches that
  process at every call while root's credits are being spent, because the second search stops
  after one user and spends no process credit. Root's processes get their weighted turns exactly
  when the first other user has no process (or root has no process other than that one).
- `choose_task` ends exactly when root's process list is not empty.
- Only `init_idle` writes the per-CPU table behind `cpu_curr` and `last_schedule`; `schedule`
  does not. Over any run every booted CPU therefore looks idle since its boot: `reschedule_idle`
  never preempts and its scan picks the same CPU for a task whatever is running, and
  `sys_sched_yield` counts no busy CPU.
- The scan of `reschedule_idle` checks one CPU and signals the one recorded in that CPU's
  `cpu_curr` task. The two agree exactly when those tasks are recorded on their own CPUs, which
  lasts exactly as long as no dispatch takes one of them, an idle task, to another CPU.
- `wtc_proc_test` ends under exactly the strongly fair schedules. Weak fairness does not suffice
  for any program: the polling parent can always take a semaphore before the waiting children.

## Model

| member | source | states |
|---|---|---|
| Closure.PivotStable | Project_1/Stuff/wtc_btproc.c:93-95 | round k leaves pivot row k and pivot column k unchanged |
| Closure.UncoveredStays | Project_1/Stuff/wtc_proc.c:116-117 | a cell outside the static partition keeps its input value through every round |
| Closure.ReachHasPath | Project_1/Stuff/wtc_proc.c:115-121 | whatever the rounds set is joined by a path through earlier pivots |
| Closure.PathIsReached | Project_1/Stuff/wtc_proc.c:115-121 | a path that respects the cover is found by the round after its largest intermediate vertex |
| Closure.ReachIffVia | Project_1/Stuff/wtc_btproc.c:152-156 | after rounds 0..k-1 a cell is set iff a path with intermediates below k exists |
| Closure.RoundsExact | Project_1/Stuff/wtc_proc.c:111-126 | the exact result of n rounds for any static partition, in terms of paths |
| Closure.RoundsSound | Project_1/Stuff/wtc_proc.c:111-126 | no input edge is lost and no unjoined pair is set, for any partition |
| Closure.RoundsAreClosure | Project_1/Stuff/wtc_btproc.c:85-100 | n rounds over all cells give the transitive closure, both directions |
| Closure.OwnerUnique | Project_1/Stuff/wtc_proc.c:116-117 | the static ranges are pairwise disjoint |
| Closure.OwnsIffQuotient | Project_1/Stuff/wtc_proc.c:111-117 | worker id owns exactly the covered vertices whose quotient by n/T is id |
| Closure.OwnedIffCovered | Project_1/Stuff/wtc_proc.c:111-117 | the owned columns are exactly the first T*(n/T) |
| Closure.PartitionIffDivides | Project_1/Stuff/wtc_proc.c:111-117 | the ranges cover 0..n-1 iff T divides n |
| Closure.CoverCorrectIff | Project_1/Stuff/wtc_proc.c:111-126 | static columns, or static rows, give the closure of every graph iff T divides n or n <= 1 |
| Matrix.Index | Project_1/Stuff/wtc_proc.c:121 | row-major positions stay inside the n*n ints and determine row and column |
| Matrix.ColumnStepCell | Project_1/Stuff/wtc_btproc.c:93-95 | a column update changes exactly column y, by Warshall's rule |
| Matrix.UpdateColumn | Project_1/Stuff/wtc_btproc.c:91-96 | the in-place j loop, reading cells it has already rewritten, is the column step on the original matrix |
| Matrix.PivotsFixed | Project_1/Stuff/wtc_btproc.c:89-99 | during round k pivot row and column hold their starting values whatever else is written |
| Matrix.ColumnRound | Project_1/Stuff/wtc_btproc.c:89-99 | writing a covered column at any moment of the round finishes it and spoils no other |
| Matrix.CellRound | Project_1/Stuff/wtc_thr.c:91-97 | writing one covered cell at any moment of the round finishes it and spoils no other |
| Matrix.RoundEnds | Project_1/Stuff/wtc_thr.c:84-101 | once every covered cell is written the matrix is the next round's start |
| Matrix.AnyOrderIsARound | Project_1/Stuff/wtc_btproc.c:89-99 | any order and repetition of the column updates is one sequential Warshall round |
| Matrix.AlwaysClosureIff | Project_1/Stuff/wtc_proc.c:111-126 | a driver that finishes only after n rounds on its static partition is right on every graph iff T divides n or n <= 1 |
| HandBarrier.ChildKeepsInv | Project_1/Stuff/wtc_proc_test.c:119-156 | every child step keeps the barrier, lock, counter and matrix invariant |
| HandBarrier.ParentKeepsInv | Project_1/Stuff/wtc_proc_test.c:158-175 | every parent step keeps it, including the window between flip and reset |
| HandBarrier.ChildKeepsLocks | Project_1/Stuff/wtc_proc_test.c:125-155 | each semaphore stays binary and is owned by the one actor inside its section |
| HandBarrier.FlipMeansAllArrived | Project_1/Stuff/wtc_proc_test.c:164-167 | at the flip every child has arrived in the open round |
| HandBarrier.FlipEndsRound | Project_1/Stuff/wtc_proc_test.c:164-167 | at the flip every covered column of the round has been written |
| HandBarrierRuns.BarrierSafe | Project_1/Stuff/wtc_proc_test.c:119-147 | in every reachable state rounds differ by at most one, and a child computes in round k only with every other child in round k or arrived at its end and all earlier rounds in the matrix |
| HandBarrierRuns.ResetLosesNothing | Project_1/Stuff/wtc_proc_test.c:164-170 | between flip and reset no child is inside the bCount section and every counted arrival is released |
| HandBarrierRuns.EndToEnd | Project_1/Stuff/wtc_proc_test.c:117-175 | when count is 0 every child has passed n rounds and the matrix is the exact result, the closure if T divides n |
| HandBarrierRuns.ExitMeansCountZero | Project_1/Stuff/wtc_proc_test.c:161-175 | the parent leaves only with count 0 |
| HandBarrierRuns.ArrivalsDecide | Project_1/Stuff/wtc_proc_test.c:164 | cont differs from the parent's nextFlip in every reachable state, so the arrival count alone decides the flip |
| HandBarrierProgress.StepMeasure | Project_1/Stuff/wtc_proc_test.c:122-175 | useful steps lower a natural-number measure, spins and polls leave it alone |
| HandBarrierProgress.SomeProgress | Project_1/Stuff/wtc_proc_test.c:122-175 | from every reachable unfinished state some schedule makes a useful step: no deadlock, no livelock trap |
| HandBarrierProgress.CanFinish | Project_1/Stuff/wtc_proc_test.c:122-175 | from every reachable state the run can be completed |
| HandBarrierProgress.UsefulStepsBounded | Project_1/Stuff/wtc_proc_test.c:122-175 | every schedule makes boundedly many useful steps |
| HandBarrierProgress.PrintsClosureIff | Project_1/Stuff/wtc_proc_test.c:117-186 | every finished run of every graph prints the closure iff T divides n or n <= 1 |
| HandBarrierFairness.NoStall | Project_1/Stuff/wtc_proc_test.c:122-175 | no strongly fair run goes on polling for ever short of the exit |
| HandBarrierFairness.FairRunsFinish | Project_1/Stuff/wtc_proc_test.c:117-175 | every endless schedule that serves whoever can act again and again brings the parent to its exit, with the n rounds in the matrix |
| HandBarrierFairness.FairRunExists | Project_1/Stuff/wtc_proc_test.c:117-175 | every program has such a run |
| HandBarrierFairness.EndsIffFair | Project_1/Stuff/wtc_proc_test.c:117-175 | an endless run brings the parent to its exit iff it is strongly fair |
| HandBarrierWeakFairness.WeakFairnessIsNotEnough | Project_1/Stuff/wtc_proc_test.c:117-175 | every program has a run that never ends although nobody who stays able to act is passed over: the polling parent takes bLock (or cLock) before the waiting children |
| HandBarrierMachine.Machine.ChildTurn | Project_1/Stuff/wtc_proc_test.c:119-156 | the child's code in place does exactly the transition system's step |
| HandBarrierMachine.Machine.ParentTurn | Project_1/Stuff/wtc_proc_test.c:158-175 | the parent's code in place does exactly the transition system's step |
| HandBarrierMachine.Machine.Execute | Project_1/Stuff/wtc_proc_test.c:119-175 | any schedule run in place follows the model, and the matrix is the rounds' result once the parent is through |
| TwoBarriers.MoveKeepsOk | Project_1/Stuff/wtc_btproc.c:150-164 | the two-barrier protocol keeps members within one round and the arrival counts exact |
| TwoBarriers.LastIntoFirst | Project_1/Stuff/wtc_btproc.c:154-161 | the arrival that opens the first barrier finds everyone else inside it |
| TwoBarriers.LastIntoSecond | Project_1/Stuff/wtc_btproc.c:155-163 | the arrival that opens the second barrier finds everyone else inside it |
| TwoBarriers.StuckMeansGone | Project_1/Stuff/wtc_btproc.c:150-164 | the barriers cannot deadlock |
| TwoBarriers.RoundsApart | Project_1/Stuff/wtc_btproc.c:150-164 | members are never more than one round apart |
| BagOfTasks.SetQueue | Project_1/Stuff/wtc_btproc.c:26-34 | the bag holds 0..n-1 in order and the sentinel at index n |
| BagOfTasks.Bag.QueuePop | Project_1/Stuff/wtc_btproc.c:74-83 | a pop yields the next column or the sentinel, and never moves past it |
| BagOfTasks.Bag.ChildCompute | Project_1/Stuff/wtc_btproc.c:85-100 | alone, it updates every remaining column once in order and empties the bag |
| BagOfTasks.LoneChildIsARound | Project_1/Stuff/wtc_btproc.c:85-100 | with a full bag that is one Warshall round |
| BagOfTasks.StepRefinesRounds | Project_1/Stuff/wtc_btproc.c:150-164 | barrier calls are protocol moves and nothing else changes the protocol |
| BagOfTasks.LastArrivalEndsRound | Project_1/Stuff/wtc_btproc.c:85-100 | when barrier1 opens the bag is empty and every column is written |
| BagOfTasks.ActKeepsInv | Project_1/Stuff/wtc_btproc.c:85-164 | every step keeps: taken columns are finished or held by one child, grants are in order, the reset is between barriers |
| BagOfTasksRuns.NoDoubleDispatch | Project_1/Stuff/wtc_btproc.c:74-83 | no column is granted twice in a round |
| BagOfTasksRuns.ExactlyOnce | Project_1/Stuff/wtc_btproc.c:74-100 | a finished round granted every column exactly once |
| BagOfTasksRuns.HolderWasGranted | Project_1/Stuff/wtc_btproc.c:74-99 | in every reachable state a child at work on a column is the one it was granted to in that round |
| BagOfTasksRuns.ClearIsQuiet | Project_1/Stuff/wtc_btproc.c:160-164 | the parent resets qNum only while every child is between the barriers of the same round |
| BagOfTasksRuns.BetweenRounds | Project_1/Stuff/wtc_btproc.c:150-164 | between rounds the matrix is the reachability through vertices below k |
| BagOfTasksRuns.WithinARound | Project_1/Stuff/wtc_btproc.c:85-100 | inside round k every cell lies between reachability below k and below k+1 |
| BagOfTasksRuns.ParentLeavesWithClosure | Project_1/Stuff/wtc_btproc.c:158-164 | when the parent leaves its loop the matrix is the transitive closure |
| BagOfTasksRuns.StepMeasure | Project_1/Stuff/wtc_btproc.c:150-164 | every unblocked step lowers a measure |
| BagOfTasksRuns.StepsBounded | Project_1/Stuff/wtc_btproc.c:150-164 | every schedule makes boundedly many steps |
| BagOfTasksRuns.MaximalRunIsClosure | Project_1/Stuff/wtc_btproc.c:150-173 | a run that cannot go on has finished, and its matrix is the closure |
| BagOfTasksMachine.Machine.Turn | Project_1/Stuff/wtc_btproc.c:85-164 | the code in place does exactly the transition system's step |
| BagOfTasksMachine.Machine.Execute | Project_1/Stuff/wtc_btproc.c:150-164 | any schedule run in place follows the model, ending with the closure |
| StaticColumns.LastArrivalEndsRound | Project_1/Stuff/wtc_proc.c:113-126 | when the barrier opens every owned column is written |
| StaticColumns.ActKeepsInv | Project_1/Stuff/wtc_proc.c:113-132 | every step keeps the one-barrier round invariant |
| StaticColumns.ParentPrints | Project_1/Stuff/wtc_proc.c:128-141 | what is printed for any T, and that it is the closure if T divides n |
| StaticColumns.StuckMeansExited | Project_1/Stuff/wtc_proc.c:113-132 | the barrier cannot deadlock |
| StaticColumns.CanFinish | Project_1/Stuff/wtc_proc.c:113-132 | every reachable state can run to the end |
| StaticColumns.StepsBounded | Project_1/Stuff/wtc_proc.c:113-132 | every schedule makes boundedly many steps |
| StaticColumns.PrintsClosureIff | Project_1/Stuff/wtc_proc.c:111-141 | every finished run of every graph prints the closure iff T divides n or n <= 1 |
| StaticColumnsMachine.Machine.Turn | Project_1/Stuff/wtc_proc.c:113-132 | the code in place does exactly the transition system's step |
| StaticColumnsMachine.Machine.Execute | Project_1/Stuff/wtc_proc.c:113-132 | any schedule run in place follows the model, ending with the rounds' result |
| BitArray.OrSetsOneBit | Project_1/Stuff/bit_char.c:20 | or-ing a mask into a byte sets that bit and no other |
| BitArray.SetChangesOneBit | Project_1/Stuff/bit_char.c:17-21 | bit_array_set changes exactly one logical bit of the whole array |
| BitArray.BitValues | Project_1/Stuff/bit_char.c:17-29 | a place is the bit of value 2^(place % 8) in byte place / 8, in setting and in getting |
| BitArray.Array.constructor | Project_1/Stuff/bit_char.c:7-10 | size/8+1 bytes, all bits clear |
| BitArray.Array.Set | Project_1/Stuff/bit_char.c:17-21 | in place, the boolean sequence changes at one position |
| BitArray.Array.Get | Project_1/Stuff/bit_char.c:23-29 | reads back the boolean at that position |
| BitArray.CellFits | Project_1/Stuff/functions.c:24 | every cell of an n*n matrix lies inside the bytes allocated for it |
| BitArray.CellsDistinct | Project_1/Stuff/wtc_thr.c:88-95 | different cells use different bits |
| BitArray.UnpackAfterSet | Project_1/Stuff/wtc_thr.c:95 | setting a bit writes one matrix cell, even when the byte is shared by two rows |
| PackedRows.StepRefinesRounds | Project_1/Stuff/wtc_thr.c:84-102 | barrier calls are protocol moves; the loop test sees the thread's own round |
| PackedRows.UpdateKeepsCells | Project_1/Stuff/wtc_thr.c:88-97 | a cell update with a pivot bit read earlier outside the mutex still finishes the cell |
| PackedRows.LastArrivalEndsRound | Project_1/Stuff/wtc_thr.c:86-100 | when the first barrier opens every covered cell is written |
| PackedRows.ActKeepsInv | Project_1/Stuff/wtc_thr.c:44-102 | every step of worker or main keeps the round invariant |
| PackedRowsRuns.SameK | Project_1/Stuff/wtc_thr.c:84-92 | whenever a thread may read k it equals that thread's round |
| PackedRowsRuns.AdvanceIsQuiet | Project_1/Stuff/wtc_thr.c:46-48 | k is advanced only while every worker is between the two barriers |
| PackedRowsRuns.StalePivotIsRight | Project_1/Stuff/wtc_thr.c:88-92 | the pivot bit held outside the mutex equals the round's pivot cell |
| PackedRowsRuns.MainPrints | Project_1/Stuff/wtc_thr.c:44-59 | after the joins the packed matrix is the exact result, the closure if T divides n |
| PackedRowsRuns.MainExitsLast | Project_1/Stuff/wtc_thr.c:51-55 | main never passes a thread in its joins that has not exited, and exits only when every worker has |
| PackedRowsRuns.StepWork | Project_1/Stuff/wtc_thr.c:44-102 | every unblocked step lowers what the thread still owes |
| PackedRowsRuns.StuckMeansExited | Project_1/Stuff/wtc_thr.c:44-102 | barriers and joins cannot deadlock |
| PackedRowsRuns.CanFinish | Project_1/Stuff/wtc_thr.c:44-102 | every reachable state can run to the end |
| PackedRowsRuns.StepsBounded | Project_1/Stuff/wtc_thr.c:44-102 | every schedule makes boundedly many steps |
| PackedRowsRuns.CanStart | Project_1/Stuff/functions.c:24-35 | every edge set has a packed starting matrix |
| PackedRowsRuns.PrintsClosureIff | Project_1/Stuff/wtc_thr.c:22-59 | every finished run of every graph prints the closure iff T divides n or n <= 1 |
| PackedRowsMachine.Machine.Turn | Project_1/Stuff/wtc_thr.c:44-102 | the code in place does exactly the transition system's step |
| PackedRowsMachine.Machine.Execute | Project_1/Stuff/wtc_thr.c:44-102 | any schedule run in place follows the model; when main is through every worker has exited and the bits are the rounds' result |
| WaitQueue.Kernel.AddToRunqueue | Project_2/stuff/sched.c:331-335 | the task goes to the tail and nr_running keeps counting the queue |
| WaitQueue.Kernel.MoveLastRunqueue | Project_2/stuff/sched.c:337-341 | the task moves to the tail and the queue stays consistent |
| WaitQueue.Kernel.TryToWakeUp | Project_2/stuff/sched.c:351-370 | the task runs; success iff it was not on the run queue, and then reschedule_idle is called unless the wakeup is synchronous and the task may run here |
| WaitQueue.Kernel.WakeUpCommon | Project_2/stuff/sched.c:711-733 | the scanning loop in place is the scan function, and reschedule_idle is called for exactly the tasks it queued, in order, by the same rule |
| WaitQueue.Kernel.SchedYield | Project_2/stuff/sched.c:1074-1101 | when the number of queued tasks differs from that of busy CPUs the caller goes to the tail, need_resched is set and an ordinary task gets the yield bit; when they are equal nothing changes |
| WaitQueue.MoveLastPermutes | Project_2/stuff/sched.c:337-341 | the others keep their order |
| WaitQueue.ScanWakesPrefix | Project_2/stuff/sched.c:711-733 | a scan wakes exactly the matching entries up to the nr-th successful exclusive one, in queue order |
| WaitQueue.QueuesAreOrdered | Project_2/stuff/sched.c:765-833 | every reachable wait queue holds exactly the tasks that sleep and have not returned: the non-exclusive ones first, the latest in front, then the exclusive ones in the order they came |
| WaitQueue.WakeupContract | Project_2/stuff/sched.c:702-733 | nr > 0 wakes every matching non-exclusive task and min(nr, wakeable) exclusive ones; nr = 0 wakes every match |
| WaitQueue.ScanSparesOthers | Project_2/stuff/sched.c:711-733 | a scan touches no task that is running or in a state outside its mode |
| WaitQueue.RunqueueConsistent | Project_2/stuff/sched.c:331-370 | over all wakeups and yields the run queue has no duplicates and exactly the expected tasks |
| WaitQueue.SecondWakeupFails | Project_2/stuff/sched.c:359-369 | waking a queued task adds nothing and reports failure |
| WaitQueue.BusyCpusCounts | Project_2/stuff/sched.c:1078-1084 | the CPUs taken off the pending count are those whose current task is not the idle one |
| Completion.CompleteWakesOne | Project_2/stuff/sched.c:755-763 | complete turns at least one sleeping waiter into a running one even when some wakeups return 0 |
| Completion.CompleteServesFirst | Project_2/stuff/sched.c:755-763 | complete queues exactly the earliest queued waiter that sleeps off the run queue; those before it run, those behind it are left |
| Completion.ResumeKeepsInv | Project_2/stuff/sched.c:773-781 | a waiter coming back, spuriously or not, keeps the invariant |
| Completion.QueueMembers | Project_2/stuff/sched.c:765-783 | a caller is queued from finding nothing done until it finds something done |
| Completion.LaterWaitersStandBehind | Project_2/stuff/sched.c:772 | over every run a waiter that comes while another is queued stands behind it as long as that one stays |
| Completion.SleepsUntilDone | Project_2/stuff/sched.c:767-778 | a caller that finds nothing done sleeps uninterruptibly, again after every return of schedule, and touches nobody else |
| Completion.TakesWhatIsDone | Project_2/stuff/sched.c:778-781 | one that finds a completion takes exactly one, leaves the queue and touches no task |
| Completion.ActKeepsInv | Project_2/stuff/sched.c:755-783 | completers, waiters, barging callers and foreign wakeups all keep it |
| Completion.NoLostWakeup | Project_2/stuff/sched.c:755-783 | if a queued waiter sleeps, at least done queued waiters are running |
| Completion.PendingHasTaker | Project_2/stuff/sched.c:755-783 | with completions pending and waiters queued, some running waiter returns when scheduled |
| Completion.CompletionsConserved | Project_2/stuff/sched.c:755-783 | every return is paid for by exactly one complete |
| CompletionLiveness.PendingAreReturned | Project_2/stuff/sched.c:755-783 | if waiters that stay marked running are resumed, as many pending completions are returned in time as waiters were queued |
| CompletionLiveness.CompletionsAreReturned | Project_2/stuff/sched.c:755-783 | and all completions issued by a time with enough waiters queued are returned |
| Completion.CompletionVar.Complete | Project_2/stuff/sched.c:755-763 | the code in place is the complete step, and every task it queues is offered to reschedule_idle wherever it may run |
| Completion.CompletionVar.WaitBegin | Project_2/stuff/sched.c:767-775 | the code in place up to the unlock is the wait step |
| Completion.CompletionVar.WaitAgain | Project_2/stuff/sched.c:774-782 | the code in place from the relock is the resume step |
| IdleCpu.PreemptionOrder | Project_2/stuff/sched.c:146-205 | who may preempt whom: yielders nobody, real-time tasks every ordinary one, a spent task only a yielder |
| IdleCpu.OrdinaryGoodness | Project_2/stuff/sched.c:160-185 | between ordinary tasks goodness rises with the ticks left, falls with nice, and favours the CPU last used and the address space in use |
| IdleCpu.RealTimeThreshold | Project_2/stuff/sched.c:160-195 | when exactly a real-time task is worth more than an ordinary one |
| IdleCpu.SharedSpaceIsEasier | Project_2/stuff/sched.c:202-205 | preemption favours the address space the running task has active |
| IdleCpu.ScanCpus | Project_2/stuff/sched.c:252-297 | the loop ends with the first least-recently-scheduled idle CPU, else the first easiest busy one, else none |
| IdleCpu.Signals.SendNowIdle | Project_2/stuff/sched.c:231-241 | need_resched is set and an interrupt sent only when needed |
| IdleCpu.Signals.RescheduleIdle | Project_2/stuff/sched.c:214-307 | the whole function picks the specified task and sends exactly the specified signal |
| IdleCpu.ChoiceUnique | Project_2/stuff/sched.c:252-306 | the specification admits one choice |
| IdleCpu.ChoiceIsBest | Project_2/stuff/sched.c:252-306 | against every schedulable scanned CPU, in the source's own fields: the chosen idle one was scheduled on longest ago, the preempted one is the easiest, and nobody is preempted while one is idle |
| IdleCpu.PairIsTaken | Project_2/stuff/sched.c:272-279 | with siblings the first schedulable CPU idle together with its sibling is taken |
| IdleCpu.OnlySchedulableSignalled | Project_2/stuff/sched.c:221-304 | when every scanned CPU is the one recorded in its cpu_curr task, the CPU signalled passes can_schedule and its cpu_curr is the chosen task |
| IdleCpu.SignalsAreSchedulableIff | Project_2/stuff/sched.c:254-304 | no wakeup of a further task signals a CPU failing can_schedule iff every scanned CPU is the one recorded in its cpu_curr task |
| CpuTable.AlwaysLooksIdle | Project_2/stuff/sched.c:1351-1365 | init_idle alone writes the per-CPU table, so after any dispatches every booted CPU looks idle since the time it booted |
| CpuTable.NeverPreempts | Project_2/stuff/sched.c:221-304 | with that table reschedule_idle never preempts, and acts iff the woken task may use its last CPU or a scanned one |
| CpuTable.ScanIsSettled | Project_2/stuff/sched.c:254-304 | the CPU a scan picks for a task is settled at boot, whatever is dispatched in between |
| CpuTable.NoCpuIsBusy | Project_2/stuff/sched.c:1078-1084 | with that table sys_sched_yield takes no CPU off the pending count |
| CpuTable.PlacesStayIff | Project_2/stuff/sched.c:659-663 | over any dispatches the cpu_curr tasks stay recorded on their CPUs iff none of them is dispatched on another CPU |
| CpuTable.SignalsStaySchedulable | Project_2/stuff/sched.c:221-304 | and then every wakeup signals only CPUs that pass can_schedule |
| IdleCpu.IdleBeatsPreemption | Project_2/stuff/sched.c:266-304 | a schedulable idle CPU with a time below the sentinel beats preemption, with or without siblings, iff the first idle sibling pair does not carry the sentinel itself |
| Picker.Scheduler.FindReady | Project_2/stuff/sched.c:568-577 | the list walk finds the first process with a credit |
| Picker.Scheduler.ResetTurns | Project_2/stuff/sched.c:609-617 | every user gets one turn, nothing else changes |
| Picker.Scheduler.ResetAll | Project_2/stuff/sched.c:622-655 | all turns and all credits are refilled by weight |
| Picker.ResetsGive | Project_2/stuff/sched.c:609-655 | a refill pays every super process 2 and every other 1 and gives every user one turn; the other reset gives turns only |
| Picker.Scheduler.RootPass | Project_2/stuff/sched.c:564-579 | root's first ready process is charged one credit and root one turn |
| Picker.Scheduler.OtherPass | Project_2/stuff/sched.c:582-606 | only the first other user is considered, and its process credit is not spent |
| Picker.Scheduler.ChooseTask | Project_2/stuff/sched.c:562-661 | from any counters the specified process is dispatched, exactly the specified counters are charged, and the passes taken are the fewest that end the search, at most three |
| Picker.EmptyRootNeverEnds | Project_2/stuff/sched.c:562-657 | without root processes no number of passes ends the search, whatever has been counted |
| Picker.ChooseTaskEndsIff | Project_2/stuff/sched.c:562-657 | choose_task ends, and then within two gotos, iff root has a process; within one iff root also has a turn or a credit left |
| Picker.CallSpendsOne | Project_2/stuff/sched.c:562-661 | each call spends exactly one root credit, refilling only when none is left |
| Picker.RootIsServedInOrder | Project_2/stuff/sched.c:562-661 | until the credits run out the calls charge root's processes in list order by credit |
| Picker.EpochLength | Project_2/stuff/sched.c:622-637 | between two full refills there are exactly as many calls as the weights add up to |
| Picker.EpochShares | Project_2/stuff/sched.c:562-657 | an epoch has one call per root process and one more per super process, and charges a super process twice and any other once |
| Picker.RoundRobin | Project_2/stuff/sched.c:562-657 | over any number of epochs and from any counters, the calls charge what credit is left and then root's processes by weight in list order, over and over |
| Picker.AloneServedInOrder | Project_2/stuff/sched.c:562-661 | with no ready other user the calls dispatch what they charge until root's credits run out |
| Picker.AloneRoundRobin | Project_2/stuff/sched.c:562-661 | with no process at the first other user the calls dispatch the credits left and then root's processes by weight in list order, over any number of epochs |
| Picker.AlwaysServesRootIff | Project_2/stuff/sched.c:582-606 | when root's processes are none of that user's first one, every call for ever dispatches what it charges iff that user has no process |
| Picker.WhoRuns | Project_2/stuff/sched.c:562-661 | which process a call dispatches, from any counters |
| Picker.OtherTakesEveryCall | Project_2/stuff/sched.c:582-606 | with a ready first other user its one process is dispatched at every call |
| Picker.EpochServesRootIff | Project_2/stuff/sched.c:582-606 | an epoch dispatches root's processes by weight iff the first other user has no process or root has no process but that user's first |
| Picker.StaysInRange | Project_2/stuff/sched.c:562-657 | process counters stay in 0..2 and user counters in 0..1 over all calls |
| ChunkedRead.SwapSwapsBytes | Project_3/server.c:304-305 | the high byte of a short travels first |
| ChunkedRead.SwapRoundTrip | Project_3/client.c:224-225 | htons then ntohs is exact iff the value fits 16 bits |
| ChunkedRead.MessageCarries | Project_3/server.c:304-308 | every length and done mark the server sends survives its header |
| ChunkedRead.ChunksAreTheRead | Project_3/server.c:289-326 | the chunks end to end are the one-shot read |
| ChunkedRead.ChunkSizes | Project_3/server.c:289-326 | every chunk before the last has 4096 bytes, the last the rest, and their number follows from size and file length |
| ChunkedRead.SendFrame | Project_3/server.c:292-325 | each turn sends one well-formed frame, marked iff nothing is left |
| ChunkedRead.ServerRead | Project_3/server.c:289-328 | the framing loop ends and sends exactly the chunks: 4096 bytes in every frame but the last, only the last marked |
| ChunkedRead.ClientRead | Project_3/client.c:216-235 | the reassembly loop puts the carried bytes end to end and touches nothing after them |
| ChunkedRead.RemoteRead | Project_3/hello.c:67-75 | server and client together give the bytes and count of the local one-shot read |
| ChunkedRead.ReadLength | Project_3/hello.c:67-75 | the length is min(size, max(len - offset, 0)) and the bytes are the file's from offset on |

## Left out

- `Project_1/Stuff/wtc_btthr.c`: its round reset is the literal 10 and a losing worker reuses a stale index, so it does not compute the closure in general.
- `Project_1/Stuff/OS_Project1`: copies of the files modelled here.
- Loading with `fscanf` and `feof`: runs start from a zeroed matrix with the input edges set.
- Shared-memory layout: shared variables are separate fields; the byte offsets and mapped sizes are not modelled.
- Machine integer width: indices, counters and `done` are unbounded; overflow of `n*n`, of `totalsize` or of `done` is not modelled.
- The thread creation handshake through `input_value` in `wtc_thr.c`: all workers may run from the start, which includes every order in which they could be started.
- The byte read of the pivot bit is one step; a torn or reordered read is not modelled.
- HandBarrierProgress.StepMeasure: a poll leaves the measure unchanged, so the bound is on useful steps and not on the spins between them.
- The uniprocessor builds of `reschedule_idle` and `sys_sched_yield`.
- `try_to_wake_up` records its calls of `reschedule_idle` in order; which CPU such a call picks is `IdleCpu`, and the two are not run as one program.
- Picker.Scheduler.ChooseTask: requires a root process, since the method has to end; `ChooseTaskEndsIff` covers the empty list.
- Completion.CompletionVar.WaitBegin: the call to `schedule()` between two critical sections is not a statement of the method; the transition system lets it return at any time.
- Context switch, memory maps, timers and the system calls that only read or clamp values in `sched.c`.
- Fairness between users in `schedule`: not claimed, see `Picker.EpochServesRootIff`.
- `pread` errors, partial `recv`, sockets, FUSE and path handling in `Project_3`.
- ChunkedRead.ServerRead: when `size` is 0 the number of bytes after the header comes from an unset variable; it is a parameter here.
