# HetSim verification project

A Dafny model of the synchronisation stack HetSim runs on, of the two parallel applications
built on it, of the compiler pass and runtime that record traces, and of five stand-alone
algorithms of the tool scripts; with proofs about every run, every input or every reachable
state. `dafny verify dfyconfig.toml` checks the project.

## What is modelled

**Synchronisation primitives.** `SpinLock` is an interpreter for the lock, unlock and try-lock
instruction sequences of the four instruction sets, one instruction per step, with
store-conditionals that may fail for no reason. `BarrierWait` is the direction-flipping counter
barrier, `RwLock` the read-write lock and `CondVar` the condition variable of m5threads, one step
per access to shared memory. `WorkQueue` and `SleepWake` are the bounded queue and
the banked sleep/wake counter of the emulation library, with spurious wake-ups and an arbitrary
choice of whom a notify wakes. `Specs` states what a lock, a barrier, a channel and a sleep/wake
counter promise; every run of `SpinLock`, `BarrierWait`, `WorkQueue` and `SleepWake` is proved to be
a run of these, and every run of `RwLock` one of its own readers-writer specification. The m5threads mutex is the spin lock.

**Applications.** `WorkqMutex` and `VectorAdd` run the two example programs over the
specifications of `Specs`, for any number of workers, iterations, steps, elements and any queue
depth from one, and prove that every interleaving passes the programs' own checks.

**Tracing.** `StallPass` is the generated per-block loop that attaches stall counts to
instructions, and the order in which the inserted calls run. `StallRuntime` is the generated
runtime, a class that updates its maps and files. Across both it is proved that a trace holds
exactly the stall cycles and the memory accesses its thread executed.

**Stand-alone algorithms.** `PipeView` (the windowed reorder buffer), `CptUpgrader` (the
dependency-driven migration loop), `PortBinding` (the order of port bindings), `Framing`
(length-prefixed messages) and `DepTrace` (the text form of dependency traces).

`Counting` holds the counting and summing lemmas the protocol proofs share.

## Reading the concurrent models

Each is a state machine over the values of the shared variables and of each thread's program
counter: `Enabled` says when a thread can take its next step, `Apply` takes it, and `Run` is any
finite sequence of steps from an initial state, chosen by an arbitrary scheduler. Fields called
history in the comments are written and never tested. The state machines rest on these
assumptions:

- Memory is sequentially consistent and each shared access is one step; the code leaves out a
  barrier instruction in one place (m5threads/pthread.c:309), so this is an assumption.
- A barrier initialised with N is used by exactly N threads, N at least 1; the unlocked read of
  the direction needs it.
- Read-write lock clients unlock only what they hold, and thread ids are distinct, differ from -1
  and fit the writer field.
- One thread sleeps per processing element.
- One runtime call of the tracing library is one step; every thread of a trace has a core of its
  own.

## Where the code does not do what is said of it

- The condition variable can lose a wake-up when a wait begins while a broadcast is still being
  noticed (`CondVar.LateWaitLosesWakeup` is such a run), because the count goes up under the user's
  mutex and down under the inner lock. For any number of threads, one late wait is harmless in every
  continuation if and only if the count is 0 when it begins (`CondVar.LateWaitHarmless`), and it can
  leave an earlier waiter on a cleared flag if and only if one still polls and the count is 2 or more
  (`CondVar.LateWaitStrands`). `CondVar.RunPhases` is about clients that keep to this. The flag ends at
  0 if and only if the broadcast found a waiter.
- A try-lock on ARM can return 0 although the lock is never held
  (`SpinLock.ArmTryMayFailSpuriously`); on the other three it returns 0 only if the lock was held at a
  moment since the call. `SpinLock.TryReturnsZero` has the exact condition for all four.
- `emit_stall_with_deps` called directly drops the pending count
  (`StallRuntime.DirectStallDropsPending`), and stalls are charged once per matching PE type
  (`StallRuntime.ExactlyOnePeType`).
- The comment in `bind_ports` says that sorting makes one direction of every pair bindable. It does
  not (`PortBinding.RejectsBindableWiring`); `PortBinding.AcceptsWheneverPossible` says exactly when
  the list is accepted. An accepted list with a self-connection leaves a pair unbound
  (`PortBinding.LoopLeavesPairUnbound`), and there are such lists (`PortBinding.AcceptsUnboundPair`).
- A framed message of no bytes reads back as the end of the file, and one of 2^32 bytes or more
  reads back cut (`Framing.FramingRoundTrip`).
- The reorder buffer sorts if and only if each arrival is on time for the last cut of the queue
  (`PipeView.ReorderBufferSorts`). The script's comment calls being out of
  order by at most the lower threshold sufficient and necessary; it is only sufficient
  (`PipeView.NearlyInOrder`, `PipeView.SortsWithoutCut`).
- A dependency record is lost or changed by the text form unless it has the shape of its kind
  (`DepTrace.TraceRoundTrip`).

## Model

| member | source | states |
|---|---|---|
| BarrierWait.BarrierSafety | m5threads/pthread.c:671-702 | over unbounded rounds, in every reachable state, nobody has returned from more waits than everybody has entered and counted; counter within 0..N, direction is the parity of completed rounds, no two participants more than one round apart |
| BarrierWait.EveryWaitReturns | m5threads/pthread.c:677-699 | in every weakly fair infinite run, once all N have entered their k-th wait all N return from it, however slow a spinner is and however far the others go |
| BarrierWait.NobodyTrapped | m5threads/pthread.c:677-699 | from all entered until all have left the k-th wait, one of those inside can take a step that is not a spin |
| BarrierWait.WorkDecreases | m5threads/pthread.c:677-699 | each such step uses up a finite measure and no other step adds to it |
| BarrierWait.Refines | m5threads/pthread.c:671-702 | every step is invisible to the barrier specification, enters, or leaves when the specification allows it |
| BarrierWait.RunRefines | m5threads/pthread.c:650-702 | every run, from initialisation, is a run of the barrier specification |
| BarrierWait.StepInv | m5threads/pthread.c:675-701 | counter, direction, lock ownership and round numbers stay consistent under every step of every thread |
| BarrierWait.FlipInv | m5threads/pthread.c:680-692 | the flip happens with all N arrived and starts the next round with none |
| BarrierWait.HelpfulStays | m5threads/pthread.c:677-699 | another thread takes a useful step away only by making progress itself |
| BarrierWait.InitInv | m5threads/pthread.c:650-661 | initialisation establishes the invariant |
| BarrierWait.RunInv | m5threads/pthread.c:671-702 | the invariant holds throughout every run |
| Specs.BarrierStaysSafe | m5threads/pthread.c:671-702 | entering and leaving keep every participant's finished waits within everybody's begun ones |
| SpinLock.SpinLockSafety | m5threads/spinlock_arm.h:24-68 | for all four instruction sets and any number of threads: at most one holder, lock returns only to the owner, try-lock returns 1 to the owner and 0 otherwise, and x86 always exchanges a 1 |
| SpinLock.Refines | m5threads/spinlock_alpha.h:27-73 | every instruction is invisible, or takes the atomic lock while free, or gives up a lock its thread owns |
| SpinLock.RunRefines | m5threads/spinlock_arm.h:24-68 | every run is a run of the atomic lock, starting free |
| SpinLock.OneInstruction | m5threads/spinlock_x86.h:26-57 | one instruction keeps what its program counter says, and writes the word only as taking, releasing or rewriting a held word |
| SpinLock.StepInv | m5threads/spinlock_sparc.h:27-70 | the invariant survives each instruction of each thread, including lost reservations |
| SpinLock.RunInv | m5threads/spinlock_arm.h:24-53 | the invariant holds throughout every run |
| SpinLock.ReturnOwns | m5threads/spinlock_x86.h:26-57 | at the return of a lock the thread owns it; at the return of a try-lock the result is 1 exactly if it does |
| SpinLock.TryReturnsZero | m5threads/spinlock_arm.h:51-68 | in every run on every instruction set, a try-lock returns 0 if and only if since its call its load found the lock held or, on ARM, its store was refused |
| SpinLock.TryStep | m5threads/spinlock_alpha.h:50-73 | one instruction dooms a try-lock exactly if it is refused, and doom lasts |
| SpinLock.TryFailsOnlyWhenHeld | m5threads/spinlock_alpha.h:50-73 | in every run off ARM, a try-lock that returns 0 has a moment since its call at which the lock is held |
| SpinLock.ArmTryMayFailSpuriously | m5threads/spinlock_arm.h:51-68 | a run of one thread on ARM whose try-lock returns 0 while the lock is free throughout |
| SpinLock.LoneCallerTakes | m5threads/spinlock_x86.h:26-57 | from every reachable state with the lock free, on all four instruction sets, a caller that nobody disturbs and whose stores are not refused gets the lock, by lock as by try-lock, and the word is 1 (255 on SPARC) |
| SpinLock.LoneHolderFrees | m5threads/spinlock_arm.h:40-49 | a holder that nobody disturbs gives the lock back: the word is 0 |
| SpinLock.LoneCallReturns | m5threads/spinlock_alpha.h:27-73 | so does a call from whatever instruction it has reached: lock once the lock is free, try-lock and unlock always |
| RwLock.RwLockSafety | m5threads/pthread.c:392-459 | a writer excludes all other holders, the reader count is the number of read holders whenever the inner lock is free and never negative, unlock releases the kind its caller holds |
| RwLock.Refines | m5threads/pthread.c:392-459 | every step is invisible or one the readers-writer specification allows its thread |
| RwLock.RunRefines | m5threads/pthread.c:378-459 | every run is a run of the readers-writer specification, starting with nobody inside |
| RwLock.StepInv | m5threads/pthread.c:392-459 | the invariant survives every step although the pre-spin reads are unlocked |
| RwLock.RunInv | m5threads/pthread.c:378-459 | the invariant holds throughout every run from initialisation |
| RwLock.LoneCallReturns | m5threads/pthread.c:392-459 | a call that nobody disturbs returns with what it asked for, from whatever access it has reached: a read lock once no writer is inside, a write lock once nobody is, an unlock always |
| CondVar.CondVarDrains | m5threads/pthread.c:547-583 | while a broadcast drains, the flag is never cleared under a polling waiter; when all have returned the count is 0 and the flag is 0 if and only if somebody waited |
| CondVar.WaitReturnsWithMutex | m5threads/pthread.c:553-583 | in every run of any clients a wait has its caller's mutex up to the release, is without it from there on, and returns only by taking it while it is free; its owner keeps it alone until it unlocks or waits again |
| CondVar.DrainProgress | m5threads/pthread.c:565-580 | each step of a waiter uses up a finite measure that clients do not add to |
| CondVar.DrainMoves | m5threads/pthread.c:565-580 | until all waiters have returned one can move, or a client holds the mutex they need |
| CondVar.DrainEnds | m5threads/pthread.c:565-580 | a drain takes no more waiter steps than the measure at its start, and where no waiter and no mutex owner can move all have returned |
| CondVar.DrainStep | m5threads/pthread.c:562-580 | the draining invariant survives every step of every interleaving |
| CondVar.BroadcastDrains | m5threads/pthread.c:547-551 | a broadcast with all waiters past the release turns gathering into draining |
| CondVar.RunPhases | m5threads/pthread.c:534-583 | over any number of rounds, every reachable state of clients that start waits when all is quiet or the count is 0, and broadcast when all is quiet and somebody polls, is a gathering, a drain or the tail of one with a new waiter |
| CondVar.BroadcastReachesWaiter | m5threads/pthread.c:565-570 | for such clients a waiter polling at the broadcast finds the flag set however late it looks |
| CondVar.NothingLeftOver | m5threads/pthread.c:572-577 | for such clients count and flag are 0 whenever all have returned |
| CondVar.LateWaitHarmless | m5threads/pthread.c:553-583 | a wait begun during a drain leaves pollers their flag and no count or flag behind, in every continuation without further waits and broadcasts, if and only if the count is 0 when it begins; for any number of threads |
| CondVar.LateWaitStrands | m5threads/pthread.c:553-583 | it can leave a waiter that was polling at the broadcast on a cleared flag if and only if one still polls and the count is 2 or more |
| CondVar.LateWaitBreaks | m5threads/pthread.c:562-577 | from every drain with a count above 0 a continuation in which all return and count 1 and flag 1 are left |
| CondVar.LateWaitStrandsWaiter | m5threads/pthread.c:562-577 | from every drain with a count of 2 or more and a poller, a continuation that strands it |
| CondVar.TailStep | m5threads/pthread.c:562-580 | with only the late waiter counted, every step keeps the count right and a set flag due to be cleared |
| CondVar.LateWaitLosesWakeup | m5threads/pthread.c:562-577 | a run from initialisation with one broadcast, made while two threads poll, after which a wait by a third leaves one of them polling a cleared flag |
| WorkQueue.QueueCorrect | emu/src/util.cpp:85-144 | pushed history is popped history plus queue contents, size within capacity, and no wake-up is lost on either side |
| WorkQueue.Refines | emu/src/util.cpp:104-143 | every step is invisible, or pushes the caller's word onto a channel with room, or returns its oldest word |
| WorkQueue.RunRefines | emu/src/util.cpp:85-144 | every run is a run of the channel specification, starting empty |
| WorkQueue.PopReturnsOldest | emu/src/util.cpp:130-143 | a pop returns the word that was oldest when it took one: the n-th word pushed in the whole run, if n words were taken before |
| WorkQueue.PushCarriesItsWord | emu/src/util.cpp:103-111 | the word a push brings to the queue is the one it was called with, through any number of waits |
| WorkQueue.HistoryIsCalls | emu/src/util.cpp:103-143 | the two histories are the words given to pushes and taken by pops, in order, and nothing else |
| WorkQueue.LoneCallReturns | emu/src/util.cpp:103-143 | a call that nobody disturbs returns: a push once there is room, having appended exactly its word, a pop once there is an item, having taken exactly the oldest |
| WorkQueue.NeverStuck | emu/src/util.cpp:105-143 | while a pop has an item or a push has room some thread can take a real step |
| WorkQueue.StepInv | emu/src/util.cpp:104-143 | the invariant survives every step, spurious wake-ups included |
| WorkQueue.NotifyKeepsWakeups | emu/src/util.cpp:110-142 | a notify keeps items, or free slots, within the notified threads still to run |
| WorkQueue.StepKeepsWakeups | emu/src/util.cpp:104-143 | so does every other step |
| SleepWake.SleepWakeCorrect | emu/src/util.cpp:157-175 | the counter is sleeps minus wakes and at most 1, the k-th sleep returns only after k wakes, early wakes are banked, an un-notified sleeper means the counter is 1 |
| SleepWake.Refines | emu/src/util.cpp:157-175 | every step is invisible, begins a sleep or delivers a wake, and a sleep is let go only when it may return |
| SleepWake.RunRefines | emu/src/util.cpp:157-175 | every run is a run of the sleep/wake specification, starting at 0 |
| SleepWake.NeverStuck | emu/src/util.cpp:166-175 | a sleep that may return is never stuck |
| SleepWake.LoneSleepReturns | emu/src/util.cpp:157-169 | a sleep that may return does so in a fixed number of its own steps, on a banked wake too |
| SleepWake.LoneWakeReturns | emu/src/util.cpp:170-175 | a wake that nobody disturbs returns, takes exactly 1 off the counter and notifies the sleeper |
| SleepWake.StepInv | emu/src/util.cpp:157-175 | the invariant survives every step |
| WorkqMutex.EveryRunPasses | example/app/src/workq_mutex.cpp:61-290 | every run is finite, stops exactly when the manager is done, and then wrkr_count is NUM_WORKER * ITER, each cell is (t + 1) + (t + 1) * nsteps * ITER, and the check has passed |
| WorkqMutex.NoDeadlock | example/app/src/workq_mutex.cpp:78-272 | in every reachable unfinished state some thread can take a step that is not a wait |
| WorkqMutex.WorkDecreases | example/app/src/workq_mutex.cpp:78-272 | every step of any thread uses up a finite measure of remaining work |
| WorkqMutex.RunLength | example/app/src/workq_mutex.cpp:78-272 | a run is no longer than the work at its start |
| WorkqMutex.FinishedPasses | example/app/src/workq_mutex.cpp:275-290 | with every worker finished, counter and cells hold the checked values |
| WorkqMutex.CheckIsExact | example/app/src/workq_mutex.cpp:275-290 | in whatever state the check is made, it passes if and only if counter and cells hold the expected values |
| WorkqMutex.SleepChain | example/app/src/workq_mutex.cpp:78-104 | a sleeping worker's wake-up is always on its way down the chain of workers |
| WorkqMutex.BlockedPush | example/app/src/workq_mutex.cpp:225-253 | a manager blocked on a full queue leaves a worker able to move, for any depth |
| WorkqMutex.BlockedBarrier | example/app/src/workq_mutex.cpp:241-262 | a manager blocked at the barrier leaves a worker able to move |
| WorkqMutex.BlockedJoin | example/app/src/workq_mutex.cpp:270-272 | a manager blocked in join leaves a worker able to move |
| WorkqMutex.ManagerStepInv | example/app/src/workq_mutex.cpp:205-290 | the whole-program invariant survives each manager step |
| WorkqMutex.WorkerStepInv | example/app/src/workq_mutex.cpp:61-154 | and each worker step |
| WorkqMutex.OwnIncrement | example/app/src/workq_mutex.cpp:61-76 | under the mutex the shared count moves by exactly the increments of the worker taking the step |
| WorkqMutex.RunInv | example/app/src/workq_mutex.cpp:61-290 | the invariant holds throughout every run |
| VectorAdd.ParallelIsSequential | example/app/src/vector_add.cpp:13-143 | for every N, worker count and rounding, in every interleaving, once the manager has passed the barrier every c[i] is the rounded a[i] + b[i] |
| VectorAdd.EveryRunPasses | example/app/src/vector_add.cpp:13-143 | every run is finite, stops exactly when the manager is done, and then every c[i] is the rounded a[i] + b[i] and the check of every element has passed |
| VectorAdd.CheckResult | example/app/src/vector_add.cpp:136-143 | the loop of the final check passes exactly when every element is the rounded sum |
| VectorAdd.NoDeadlock | example/app/src/vector_add.cpp:13-143 | in every reachable unfinished state some thread can take a step that is not a wait |
| VectorAdd.WorkDecreases | example/app/src/vector_add.cpp:13-143 | every step of any thread uses up a finite measure |
| VectorAdd.RangesDisjoint | example/app/src/vector_add.cpp:99-108 | no index is given to two workers |
| VectorAdd.RangesCover | example/app/src/vector_add.cpp:99-108 | every index is given to some worker |
| VectorAdd.Shares | example/app/src/vector_add.cpp:99-108 | the ranges lie within 0..N-1 and follow each other, each of N / NUM_WORKER elements but the last, which ends at N - 1 |
| VectorAdd.IndexRoundTrip | example/app/src/vector_add.cpp:24-25 | an index survives the casts to unsigned and back, the empty range's -1 included |
| VectorAdd.AddRange | example/app/src/vector_add.cpp:32-34 | the worker's loop, in place, adds a and b to its own range and to nothing else |
| VectorAdd.SequentialAdd | example/app/src/vector_add.cpp:32-34 | all the workers' loops one after the other add each element exactly once |
| VectorAdd.OtherCells | example/app/src/vector_add.cpp:32-34 | a worker's write disturbs no other worker's cells |
| VectorAdd.RunInv | example/app/src/vector_add.cpp:13-133 | the invariant holds throughout every run |
| StallPass.Identify | scripts/generate_model.py:277-611 | the generated loop over a block computes the plan; its cycles are the counted instructions; loads and stores, and only they, are marked; each plain stall sits on the memory operation that takes the cycles counted since the last attachment, or on the terminator, and each dependent stall on its own instruction with its dependences |
| StallPass.PlanConserves | scripts/generate_model.py:285-611 | for every block the cycles attached are exactly the instructions counted |
| StallPass.PlanInRange | scripts/generate_model.py:365-611 | every stall is attached to an instruction of the block |
| StallPass.PlanPlaces | scripts/generate_model.py:285-611 | for every block, what is attached to each instruction: both directions, in block order, with exact cycles and dependences |
| StallPass.CallsBefore | scripts/generate_model.py:652-680 | the exact list of calls run before instruction i: its load or store call, then the plain or the dependent stall with the cycles due |
| StallPass.OperandsAre | scripts/generate_model.py:330-350 | dependences are passed as the addresses of the operations depended on, in order |
| StallPass.PathRecords | scripts/generate_model.py:652-680 | on every path of blocks, with calls nested to any depth, the load and store calls are the executed loads and stores, in order, with address and dependences |
| StallPass.RunConserves | scripts/generate_model.py:652-680 | from each instruction on, the calls charge what the plan attaches from there on, plus what callees execute |
| StallPass.PathConserves | scripts/generate_model.py:652-680 | on every path of blocks, with calls nested to any depth, the cycles passed to the runtime are the counted instructions executed |
| StallRuntime.TracedStallsAreExecutedInstructions | scripts/generate_model.py:1123-1384 | a thread with an open log and one PE type, on any path and interleaved with any calls on other cores, ends with STALL cycles written plus pending equal to the counted instructions it executed |
| StallRuntime.TracedAccessesAreExecuted | scripts/generate_model.py:1204-1311 | for such a thread the memory lines of its trace are its executed loads and stores at traced addresses, in order, each of its own kind and with its distinct dependences |
| StallRuntime.RuntimeRecords | scripts/generate_model.py:1142-1384 | over every interleaving, the memory lines grow by exactly those of the thread's own calls |
| StallRuntime.CallWrites | scripts/generate_model.py:1142-1384 | the exact lines one call adds to the file, for any pending count and any number of PE types claiming the core |
| StallRuntime.ClosedLogWritesNothing | scripts/generate_model.py:1142-1384 | with the log closed no call writes, and a plain stall forgets the count |
| StallRuntime.DistinctOnce | scripts/generate_model.py:1240-1384 | of up to three dependences each is written once, in the order of first mention |
| StallRuntime.StallDepsAre | scripts/generate_model.py:1366-1374 | a stall line keeps exactly the dependences that are in range and not 0, in order |
| StallRuntime.RuntimeConserves | scripts/generate_model.py:1142-1384 | over every interleaving, written plus pending grows by exactly the cycles the thread's own calls were given |
| StallRuntime.CallConserves | scripts/generate_model.py:1142-1384 | so it does over one call of any kind |
| StallRuntime.CallApart | scripts/generate_model.py:1142-1384 | a call on another core changes nothing the thread owns |
| StallRuntime.ExactlyOnePeType | scripts/generate_model.py:1366-1374 | a dependent stall, with whatever is pending before it, is conserved if and only if exactly one PE type claims the core |
| StallRuntime.DirectStallDropsPending | scripts/generate_model.py:1335-1384 | called directly, the dependent stall conserves if and only if nothing is pending |
| StallRuntime.Tracer.OpenTraceLog | scripts/generate_model.py:1204-1219 | gives the core an empty file unless it has one, switches the thread's log on and resets its count, and changes nothing else |
| StallRuntime.Tracer.IncrementStalls | scripts/generate_model.py:1142-1166 | the new state is that of the runtime call the conservation lemmas are about |
| StallRuntime.Tracer.EmitStall | scripts/generate_model.py:1169-1200 | the new state is the flush of the thread's pending count |
| StallRuntime.Tracer.EmitStallWithDeps | scripts/generate_model.py:1335-1384 | the new state is the dependent stall on the thread's core |
| StallRuntime.Tracer.EmitMemory | scripts/generate_model.py:1240-1311 | the new state is that of the runtime call the line and conservation lemmas are about: the flush and the memory line, once per PE type, in range and with the log open |
| PipeView.ReorderBufferSorts | gem5/util/o3-pipeview.py:142-186 | for any thresholds each instruction leaves exactly once, and the output is sorted by sequence number if and only if each arrival is on time for the last cut of the queue; then the printed part is sorted too |
| PipeView.PrintedInRegion | gem5/util/o3-pipeview.py:175-186 | an instruction is printed as often as it arrived if it lies inside each bound that is set and, on request, has retired; else not at all |
| PipeView.EqualNumbersStay | gem5/util/o3-pipeview.py:151-168 | for any trace and thresholds, instructions with the same sequence number leave in the order of arrival |
| PipeView.NearlyInOrder | gem5/util/o3-pipeview.py:45-50 | an arrival with at most the lower threshold of earlier larger ones is on time, whatever the upper threshold |
| PipeView.SortsWithoutCut | gem5/util/o3-pipeview.py:45-50 | a trace out of order by more than the lower threshold whose output is sorted |
| PipeView.OnTimeMeansSorted | gem5/util/o3-pipeview.py:142-168 | all on time gives a sorted output |
| PipeView.SortedMeansOnTime | gem5/util/o3-pipeview.py:142-168 | a sorted output means each arrival was on time |
| PipeView.SinceCut | gem5/util/o3-pipeview.py:155-168 | since the last cut nothing has left and the arrivals queue up behind what it kept |
| PipeView.AfterKeeps | gem5/util/o3-pipeview.py:155-168 | at every point the arrivals are what has left plus what is queued |
| PipeView.SortPermutes | gem5/util/o3-pipeview.py:151-153 | sorting by sequence number keeps every instruction |
| PipeView.Viewer.ProcessTrace | gem5/util/o3-pipeview.py:142-147 | over a whole trace the queue empties, what leaves is the specified output, and what is printed is its part inside the region |
| PipeView.Viewer.QueueInst | gem5/util/o3-pipeview.py:155-162 | one arrival, with a cut when the upper threshold is passed |
| PipeView.Viewer.PrintInsts | gem5/util/o3-pipeview.py:164-186 | sorts, then takes the front down to the lower threshold |
| PipeView.Viewer.PopUntil | gem5/util/o3-pipeview.py:168-186 | takes the front off in order and prints what the region keeps |
| CptUpgrader.ProcessTags | gem5/util/cpt_upgrader.py:239-251 | the loop stops; it aborts if and only if the missing tags contain a dependency cycle, else runs each missing upgrader exactly once, after its dependencies, and ends with the same tags for every set order |
| CptUpgrader.LoadAll | gem5/util/cpt_upgrader.py:172-184 | succeeds exactly when every tag named exists, and then holds exactly the forward and backward dependencies, in whatever order the tags are visited |
| CptUpgrader.LoadOne | gem5/util/cpt_upgrader.py:173-184 | one round succeeds exactly when the tags this upgrader names exist, and then its forward dependencies are known |
| CptUpgrader.ResolveForward | gem5/util/cpt_upgrader.py:174-179 | succeeds exactly when the forward tags exist, and then adds this tag to their dependencies |
| CptUpgrader.AuditDepends | gem5/util/cpt_upgrader.py:180-184 | succeeds exactly when the dependencies exist |
| CptUpgrader.RunUpgraders | gem5/util/cpt_upgrader.py:247-249 | one round in any order keeps the log in dependency order |
| CptUpgrader.StuckHasCycle | gem5/util/cpt_upgrader.py:241-245 | tags that all wait inside their own set contain a cycle |
| CptUpgrader.CyclesStay | gem5/util/cpt_upgrader.py:239-251 | a round never removes a tag on a cycle |
| CptUpgrader.LogRespects | gem5/util/cpt_upgrader.py:139-153 | in every accepted log a needed upgrader comes first |
| PortBinding.AcceptsWheneverPossible | gem5/configs/example/read_config.py:321-346 | the list is accepted if and only if no connection joins two indices of one port and some choice of directions, walked in sorted order, binds each pair once with every port in index order |
| PortBinding.BindPortsCorrect | gem5/configs/example/read_config.py:300-346 | when accepted, each pair is bound exactly once if and only if no port is connected to itself, and then every port's bindings come in the order 0, 1, 2, ... |
| PortBinding.RejectsBindableWiring | gem5/configs/example/read_config.py:321-346 | a wiring that can be bound in index order and is rejected |
| PortBinding.KeepsUp | gem5/configs/example/read_config.py:331-341 | the walk never falls behind a choice of directions that works |
| PortBinding.BindPorts | gem5/configs/example/read_config.py:300-346 | a missing port, exactly when a connection due at its source leads to a port that is no source; otherwise the chosen connections if they are half of the list, and an error if not |
| PortBinding.ChooseConnections | gem5/configs/example/read_config.py:308-341 | the loop stops at a missing port exactly when there is one, and else makes the specified choice |
| PortBinding.SymmetricMissesNothing | gem5/configs/example/read_config.py:313-315 | a list with both directions never misses a port |
| PortBinding.StartIndices | gem5/configs/example/read_config.py:308-311 | every port that is a source starts at index 0 |
| PortBinding.SortOrders | gem5/configs/example/read_config.py:158-160 | the list is walked in order of object, port and index, and a sorted list as it is |
| PortBinding.SortedThroughout | gem5/configs/example/read_config.py:158-160 | any two connections of the sorted list are in order of from-port, then to-port |
| PortBinding.PortsOfOneObject | gem5/configs/example/read_config.py:158-160 | between two ports of one object the names decide, at the first character where they differ, whatever the indices are, and the indices only within one port; dcache_port comes before icache_port |
| PortBinding.LessStringIs | gem5/configs/example/read_config.py:158-160 | names compare at the first place where they differ, a prefix first |
| PortBinding.ConsiderAllBinds | gem5/configs/example/read_config.py:313-341 | a port's index is the number of bindings made there, which are in order |
| PortBinding.ConsiderAllDisjoint | gem5/configs/example/read_config.py:331-341 | no port is bound twice |
| PortBinding.HalfIsAll | gem5/configs/example/read_config.py:343-346 | half as many disjoint bindings as connections cover every pair |
| PortBinding.LoopLeavesPairUnbound | gem5/configs/example/read_config.py:343-346 | with a self-connection the count is right only if a pair is unbound |
| PortBinding.AcceptsUnboundPair | gem5/configs/example/read_config.py:343-346 | a list with self-connections that is accepted with a pair unbound |
| Framing.FramingRoundTrip | gem5/util/protolib.py:98-163 | reading back a written list gives the same list if and only if every message has at least 1 byte and fewer than 2^32 |
| Framing.DecodeEncodeAll | gem5/util/protolib.py:128-163 | messages below 2^32 bytes read back up to the first empty one |
| Framing.DecodeOne | gem5/util/protolib.py:128-163 | a message of any length comes back cut to its length modulo 2^32, and as no message if that is 0 |
| Framing.DecodeAnyFile | gem5/util/protolib.py:98-141 | what reading a message gives on any bytes at all: none for a prefix cut off, longer than ten bytes or a multiple of 2^32, all that is left for a prefix above 63 bits or past the end, else its low 32 bits of bytes |
| Framing.DecodeAny | gem5/util/protolib.py:98-126 | on any bytes the loop gives the base-128 value of the prefix, the end of the file or too many bytes |
| Framing.DecodeEncode | gem5/util/protolib.py:98-155 | decoding an encoded length below 2^63, with anything behind it, gathers it and reads exactly its bytes |
| Framing.AtMostTenBytes | gem5/util/protolib.py:110-126 | a length prefix reads at most ten bytes of any input |
| Framing.FreshBits | gem5/util/protolib.py:115-115 | the bits or-ed in never overlap those gathered |
| Framing.EncodeVarint32 | gem5/util/protolib.py:143-155 | the loop appends the base-128 encoding |
| Framing.DecodeVarint32 | gem5/util/protolib.py:98-126 | the loop computes the masked decoding, at most ten bytes and never past the end |
| Framing.ReadMessages | gem5/util/decode_inst_dep_trace.py:154-155 | the reading loop gives the messages up to the first that cannot be read |
| DepTrace.TraceRoundTrip | gem5/util/encode_inst_dep_trace.py:147-195 | a trace written and read back is the same, up to the pc and weight defaults, if and only if every record has the shape of its kind |
| DepTrace.LineRoundTrip | gem5/util/encode_inst_dep_trace.py:148-192 | so is one line, with an absent pc read back as 0 and an absent weight as 1, and it has no white space |
| DepTrace.LineText | gem5/util/decode_inst_dep_trace.py:157-203 | the written line field by field, with 0 for an absent pc and 1 for an absent weight, order dependencies before register ones |
| DepTrace.NumberForms | gem5/util/encode_inst_dep_trace.py:149-177 | int() and long() read a number with space around it, a sign with space behind it and, for long() only, a suffix L |
| DepTrace.InfoRoundTrip | gem5/util/encode_inst_dep_trace.py:149-177 | the fields before the first colon come back exactly for shaped records |
| DepTrace.MemoryRoundTrip | gem5/util/encode_inst_dep_trace.py:169-174 | address, size, flags and delay of a load or store come back if and only if all are present |
| DepTrace.CompRoundTrip | gem5/util/encode_inst_dep_trace.py:175-177 | the delay of any other record comes back if and only if it carries none of the three |
| DepTrace.DepsRoundTrip | gem5/util/encode_inst_dep_trace.py:181-192 | dependency lists come back in order |
| DepTrace.SplitCommas | gem5/util/encode_inst_dep_trace.py:149-149 | splitting at commas undoes writing with commas |
| DepTrace.NumberDecimal | gem5/util/decode_inst_dep_trace.py:158-158 | reading a printed number with int() or long() gives the number |
| DepTrace.DecodeTrace | gem5/util/decode_inst_dep_trace.py:154-203 | the writing loop produces the text of the records |
| DepTrace.WriteInfo | gem5/util/decode_inst_dep_trace.py:157-188 | the fields are written in order, with defaults for pc and weight, absent ones left out |
| DepTrace.WriteDeps | gem5/util/decode_inst_dep_trace.py:190-201 | each dependency is written behind a comma |
| DepTrace.EncodeTrace | gem5/util/encode_inst_dep_trace.py:147-195 | the reading loop gives the records up to the first line that cannot be read |
| DepTrace.ReadLine | gem5/util/encode_inst_dep_trace.py:148-192 | one line is read as specified, with every malformed line an error |
| DepTrace.ReadDeps | gem5/util/encode_inst_dep_trace.py:181-192 | the loop skips empty items and keeps the others in order |

## Left out

- Concurrent code is modelled on values, not in place: threads of pthread.c, util.cpp and the applications are interleaved steps over a state value, since a Dafny method runs alone.
- Relaxed memory: reorderings that barriers and volatile accesses do not forbid.
- Runtime calls of the tracing library interleaved inside one another: one call is one step.
- SpinLock.SpinLockSafety: states exclusion and the meaning of returns; under contention a waiting thread may spin for ever, as the code allows, and `LoneCallReturns` is about calls that nobody disturbs.
- RwLock.RwLockSafety: states no liveness under contention, since readers can starve a writer in the code.
- VectorAdd.ParallelIsSequential: elements are real numbers with an arbitrary rounding of each sum; infinities and NaN are left out, and indices are 32-bit, so N is below 2^31.
- Overflow of the 32-bit barrier, reader and thread counters and of iteration variables.
- pthread_once, thread-specific data, thread-local storage and clone, and the unimplemented stubs of m5threads.
- Failure of pthread_create, unknown queue pairs (the library exits), core registration, statistics and teardown.
- The LLVM dependence analysis: its result is an arbitrary list of earlier memory operations.
- Trace text, hexadecimal printing and tokens of intrinsics; `__close_trace_log`, which leaves a pending count unwritten.
- The early stop of o3-pipeview, which calls its printer with an argument missing, and the drawing of time lines.
- Checkpoint downgraders, legacy version numbers and what an upgrader does to a checkpoint; dependency lists are sets, since they are only searched.
- PortBinding.BindPorts: does not model parsing of port names, or the binding calls made after the list is chosen.
- Framing.DecodeOne: message contents are bytes; protobuf serialisation, gzip and the file header are not part of this model, and a message has fewer than 2^63 bytes as any Python string has.
- DepTrace: the counts the scripts report at the end.
- Checkpoint aggregation, copyright dates, queue region rewriting and memory-channel interleaving: easier properties than those above, or resting on code that is not part of this model.
