# Verification of Project Delta's task scheduler and memory core

Dafny models of the engine's lock-free task queue, its batch scheduler and
worker loop, and its arena allocator with the address map underneath, with
proofs of what they guarantee over all runs. `dafny verify dfyconfig.toml`
checks everything.

## What is modelled

**The work-stealing queue.** `DequeMachine` has one transition for every
access of `TaskQueue_Push`, `TaskQueue_Pop` and `TaskQueue_Steal` to `top`,
`bottom` or a slot of the two arrays (`OwnerStep`, `ThiefStep`), for one owner
and any number of thieves under sequentially consistent interleaving. A run is
any sequence of accesses. Every state carries the history of calls,
linearization points and returns; `DequeHistory.Replay` judges it against a
sequential deque. `DequeInvariant` holds the inductive invariant,
`DequeTheorems` what follows for whole runs, `DequeSolo` what each operation
does undisturbed and that it always finishes. `DequeStrict` judges the same runs
by a stricter deque, on which a steal finds nothing only if nothing is there:
the linearization point of whoever takes the last entry is put back before the
steals that overlooked it. `Overlap` gives the same accesses two program
counters on one queue, main's push and the worker's pop, and covers every
interleaving of the two; `SharedOwner` has any number of operations inside one
window of the other thread. `TaskQueue` is the same structure as an object with
two arrays, used by one thread at a time.

**The scheduler.** `SyncMachine` runs `Scheduler_Sync` over one such machine
per worker, access by access, against workers that keep popping.
`BatchProtocol` covers a whole batch (counter store, pushes, looks at
`isAsleep`, signals, the draining loop) against the workers' loop (pop, run,
decrement, sleep, wake) with each queue operation as one atomic step.
`BatchTheorems` has what its runs do: visits, signals, the queues as sequential
deques, and main or a worker left alone. `Scheduler` has the loops of
`Scheduler_ProcessTaskBatch`, `Scheduler_Sync` and `WorkerProc` as methods;
`RoundRobin` has their index arithmetic.

**Memory.** `Arena` has `ThreadArena_Allocate` and its resets, `Layout` the
zones of the master slab, `Contexts` the initialization of all per-thread
state, `Engine` the dispatch of requests over all arenas at once,
`MemoryConfig` the lock budget, `Bits` the `ALIGN` macro and the ring mask on
64-bit words.

## Where the code differs from its intent

The code is modelled as it stands. For the full test of a push, the growth of an
arena, the payload offset of a queue and the worker's way to sleep the model
also has a minimal repair, selected by a parameter.

| place | as written | result |
|---|---|---|
| full test of a push | `b - t > size` accepts a push into an exactly full ring | undisturbed from its slot write on, such a push overwrites the oldest task and delivers the new one twice (`CrowdedPushOverwritesOldest`), and is legal iff the ring is not exactly full (`WrittenPushIsLegalIffNotCrowded`); all runs are linearizable iff the test is repaired to `>=` (`EveryRunLinearizesIff`, `EveryRunLinearizesStrictlyIff`); the queue theorems hold on every run, of either test, in which no push writes into a full ring |
| pushes by main, pops by the worker | two threads store `bottom` | `EveryOverlap`: the outcome of every interleaving of one push and one pop, and legality iff `Harmless`, a condition on where the accesses to `bottom` fall; a task can be lost, left queued after delivery, or replaced while it is being read; any number of operations inside one window: `PopsInsidePush`, `PushesInsidePop` |
| payload array of a queue | placed `size` bytes into its zone, not `size` elements | the halves overlap for every nonempty queue (`WrittenHalvesApartIff`); which entries survive a push: `PushKeepsEntryIff`; when all live ones do: `KeepsLiveIff` |
| `depCounterPtr` | never stored | `TaskQueue.constructor` leaves it null; `BatchProtocol` is proved with the counter bound |
| slow path of the arena | deficit ignores `offset`, success returns null, growth is not clamped to the zone | one call: `WrittenSlowPath`, `WrittenBlockIsBackedIff`, `WrittenGrowthLeavesZoneIff`, `WrittenHealthySystem`, `WrittenHandsOutUnbackedBlock`; whole runs: `WrittenRunIsBackedIff`, against `RepairedRunsStayBacked` and `EngineStaysBacked` |
| check of the pool size | unsigned subtraction wraps | `PoolCheckPassesIff`: budgets larger than all allowed memory are accepted |
| `IsCustomAllocated` | closed upper bound | `ForeignPointerIsFreedIff` |
| falling asleep | no second look at the queue | `WakeupCanBeMissed`; when exactly a run misses one, by the order of accesses: `WakeupMissedByOrder`; with a second look after the store of `isAsleep` no run does (`RecheckMissesNoWakeup`); tasks are still claimed exactly once (`EveryTaskClaimedOnce`) |
| counter across batches | `Scheduler_Sync` returns while workers still hold tasks | `SyncReturnsOverRunningTask` is such a run; the counter of the next batch can be relied on iff no worker holds a task when it starts and the batch fits a uint32_t (`CounterCoversIff`); exact from a quiescent start (`CounterIsExact`) |

## Model

| member | source | states |
|---|---|---|
| DequeTheorems.EveryRunLinearizes | Engine/src/delta/core/ThreadContext.cpp:196-267 | in every run each operation takes effect once between call and return with the value returned, in an order a sequential deque allows (push right, pop right, steal left, inline only when full, failed pop only when empty, failed steal only when nothing unclaimed is left or somebody else took an entry meanwhile), and memory holds that deque's contents |
| DequeStrict.EveryRunLinearizesStrictly | Engine/src/delta/core/ThreadContext.cpp:196-267 | the same against a deque on which a steal fails only if it is empty or a taker's operation overlaps: outside a claim of the last entry there is an order with the same calls and returns, each operation taking effect once in between, that leaves what memory holds |
| DequeStrict.EveryRunCompletesStrictly | Engine/src/delta/core/ThreadContext.cpp:216-267 | a claim ends by the owner's own accesses, so every run extends by them to one with such an order |
| DequeStrict.EveryRunLinearizesStrictlyIff | Engine/src/delta/core/ThreadContext.cpp:196-267 | all runs outside a claim have such an order iff the full test is `>=`; as written there is a run that no order makes legal |
| DequeTheorems.ExactlyOnePlace | Engine/src/delta/core/ThreadContext.cpp:196-267 | each task ever offered is in exactly one place: being pushed, run inline, live, claimed by the pop in progress, or delivered |
| DequeTheorems.IndexInvariant | Engine/src/delta/core/ThreadContext.cpp:201-243 | 0 <= top <= bottom + 1, top <= bottom when the owner is idle, at most size entries, slots indexed with nonnegative indices only |
| DequeTheorems.TopNeverDecreases | Engine/src/delta/core/ThreadContext.cpp:237-263 | no access ever lowers top |
| DequeTheorems.IndexIsWonOnce | Engine/src/delta/core/ThreadContext.cpp:234-264 | after one successful compare-exchange at an index every later one there, by owner or thief, fails and takes nothing |
| DequeTheorems.WinnerHoldsStoredPair | Engine/src/delta/core/ThreadContext.cpp:230-263 | whoever wins an index copied the matching task and payload of that end of the deque, whatever slots were reused meanwhile |
| DequeTheorems.UncontendedPopIsSafe | Engine/src/delta/core/ThreadContext.cpp:218-246 | once a pop has read t < b, no compare-exchange at b succeeds in any continuation until another push is published |
| DequeTheorems.StealOverlooksOnlyTheClaimed | Engine/src/delta/core/ThreadContext.cpp:249-257 | a steal that finds `t >= b` while an entry is in the deque overlooks the single entry the owner's pop is claiming; in every continuation it is gone when that pop returns, and no thief wins it that was not already trying for it |
| DequeTheorems.RunKeepsInv | Engine/src/delta/core/ThreadContext.cpp:196-267 | the inductive invariant over owner registers, thief registers, memory and history holds in every reachable state |
| DequeTheorems.RepairedRunsAreSafe | Engine/src/delta/core/ThreadContext.cpp:201 | with the test `>=` no push of any run writes a slot of a full ring |
| DequeTheorems.EveryRunLinearizesIff | Engine/src/delta/core/ThreadContext.cpp:196-267 | from a fresh queue of any size with any number of thieves all runs are linearizable iff the full test is `>=` |
| DequeTheorems.EveryRunIsSafeIff | Engine/src/delta/core/ThreadContext.cpp:201 | and iff it is, no push of any run writes a slot of a full ring |
| DequeTheorems.AcceptedPushHasRoom | Engine/src/delta/core/ThreadContext.cpp:201-213 | with the test `>=`, from the first slot write to the publication of a push the deque holds fewer entries than the ring has slots |
| DequeTheorems.CrowdedPushOverwritesOldest | Engine/src/delta/core/ThreadContext.cpp:198-213 | a push as written into an exactly full ring, undisturbed from its slot write on, leaves [e] + rest + [e] and an illegal history |
| DequeTheorems.WrittenPushIsLegalIffNotCrowded | Engine/src/delta/core/ThreadContext.cpp:198-213 | a push as written, undisturbed from its slot write on, keeps the history legal iff the ring is not exactly full at that write |
| DequeInvariant.StepKeepsInv | Engine/src/delta/core/ThreadContext.cpp:196-267 | every access by anybody keeps the invariant |
| DequeInvariant.OwnerKeepsSlots | Engine/src/delta/core/ThreadContext.cpp:208-210 | slots of live indices survive every owner access, across wraparound |
| DequeInvariant.SlotsApart | Engine/src/delta/core/ThreadContext.cpp:208-259 | indices less than size apart use different slots |
| DequeHistory.ReplayConserves | Engine/src/delta/core/ThreadContext.cpp:196-267 | in a legal history what was accepted is what is held plus what was taken |
| DequeHistory.ReplayBounded | Engine/src/delta/core/ThreadContext.cpp:201-206 | a legal history never holds more than the ring's capacity |
| Overlap.EveryOverlap | Engine/src/delta/core/ThreadContext.cpp:196-247 | for every interleaving of main's push with the worker's pop on a queue at rest with room: what the pop returns, what the queue holds afterwards, and that a sequential deque allows this iff the accesses to `bottom` fall as `Harmless` says |
| Overlap.RunKeepsRace | Engine/src/delta/core/ThreadContext.cpp:196-247 | both indices, both arrays and all registers after any number of accesses by either thread |
| Overlap.EveryOverlapEnds | Engine/src/delta/core/ThreadContext.cpp:196-247 | five accesses of the push and seven of the pop, in any order, finish both |
| SharedOwner.PopsInsidePush | Engine/src/delta/core/ThreadContext.cpp:212-219 | any number of pops directly before the push's store of `bottom`: each returns the newest entry left or fails, and the push puts all of them back, except the oldest if they took it |
| SharedOwner.PushesInsidePop | Engine/src/delta/core/ThreadContext.cpp:218-219 | any number of pushes between the pop's load and its store of `bottom`: all are lost, whatever the queue held |
| SharedOwner.WholePopOutcome | Engine/src/delta/core/ThreadContext.cpp:216-247 | an undisturbed pop returns the newest entry or fails on empty, and leaves exactly the stated indices and memory |
| DequeSolo.SoloPush | Engine/src/delta/core/ThreadContext.cpp:196-214 | undisturbed, from any state of the thieves, a push as written runs its task inline, in two accesses, iff more than size entries are held (repaired: iff the ring is full) and otherwise stores it behind the newest in five, changing nothing else |
| DequeSolo.SoloPop | Engine/src/delta/core/ThreadContext.cpp:216-247 | undisturbed, a pop takes the newest entry in exactly five accesses, or seven if it is the last, or fails on an empty queue in four |
| DequeSolo.SoloSteal | Engine/src/delta/core/ThreadContext.cpp:249-267 | undisturbed, a steal takes the oldest entry in five accesses or finds the queue empty in two |
| DequeSolo.LostRace | Engine/src/delta/core/ThreadContext.cpp:237-241 | a pop that lost the last entry changes nothing by its failed exchange and returns only with the access that puts `bottom` back |
| DequeSolo.OneChangePerAccess | Engine/src/delta/core/ThreadContext.cpp:196-267 | no access changes more than one of the two indices and the two arrays |
| DequeSolo.OwnerReturns | Engine/src/delta/core/ThreadContext.cpp:196-247 | a push or pop has returned after at most seven accesses of its own, whatever thieves do in between |
| DequeSolo.ThiefReturns | Engine/src/delta/core/ThreadContext.cpp:249-267 | a steal in progress has returned after at most four accesses of its own, whatever others do in between |
| TaskQueues.TaskQueue.constructor | Engine/src/delta/core/ThreadContext.cpp:41-62 | an empty valid ring of memSize / FIELD_SIZE entries whose counter pointer is null |
| TaskQueues.TaskQueue.Push | Engine/src/delta/core/ThreadContext.cpp:196-214 | runs inline iff more than size entries are held, else the contents become Accept(old, entry, size) |
| TaskQueues.TaskQueue.Pop | Engine/src/delta/core/ThreadContext.cpp:216-247 | fails iff empty; otherwise old contents are the new contents followed by the returned entry |
| TaskQueues.TaskQueue.Steal | Engine/src/delta/core/ThreadContext.cpp:249-267 | fails iff empty; otherwise old contents are the returned entry followed by the new contents |
| TaskQueues.AcceptAppendsIff | Engine/src/delta/core/ThreadContext.cpp:201-213 | a push as written appends iff the ring is not exactly full or the overwritten entry equals the new one |
| SyncTheorems.SyncTerminates | Engine/src/delta/core/ThreadContext.cpp:289-313 | Scheduler_Sync returns once main has made more accesses than a bound fixed at the call, under every interleaving with the workers |
| SyncTheorems.WorkerStepKeepsBudget | Engine/src/delta/core/Worker.cpp:44-49 | no access by a worker increases that bound |
| SyncTheorems.MainStepSpendsBudget | Engine/src/delta/core/ThreadContext.cpp:292-312 | every access by main decreases it |
| SyncTheorems.SyncDrains | Engine/src/delta/core/ThreadContext.cpp:285-314 | on return every task queued at the call has been delivered exactly once, except at most one per worker, held by that worker's pop |
| SyncTheorems.ReachedQueueEnters | Engine/src/delta/core/ThreadContext.cpp:269-285 | every queue reached by a legal run of pushes, pops and steals keeps the invariant and the accounts of takes |
| SyncTheorems.RunsEnterSync | Engine/src/delta/core/ThreadContext.cpp:269-290 | one legal run per worker, each ending without a push in progress and with main's steal over, leads to a state in which the draining theorems apply |
| SyncMachine.FailedStealMeansExhausted | Engine/src/delta/core/ThreadContext.cpp:256-264 | a steal that returns false, for either reason, leaves nothing but an entry the owner's pop is claiming |
| SyncMachine.WorkerKeepsQueueInv | Engine/src/delta/core/Worker.cpp:44-49 | pops keep the queue invariant and never refill an exhausted queue |
| SyncMachine.RunKeepsSystemInv | Engine/src/delta/core/ThreadContext.cpp:289-313 | in every state every queue visited since the last success is exhausted, and any other lies within the visits to come |
| SyncMachine.SyncWalks | Engine/src/delta/core/ThreadContext.cpp:289-313 | at any moment of any run, after k completed steals, successful or not, main stands at worker Walk(1, k), the steals having visited Walk(1, 0), Walk(1, 1), ... in turn; it returns after exactly one failure more in a row than there are workers |
| SyncMachine.QueueRunsAlone | Engine/src/delta/core/ThreadContext.cpp:289-313 | what a run does to each queue is a run of the single queue's machine with the worker as owner and main as thief |
| RoundRobin.WalkVisitsOnce | Engine/src/delta/core/ThreadContext.cpp:312 | any W consecutive turns of the walk visit every worker exactly once |
| RoundRobin.ShareLength | Engine/src/delta/core/ThreadContext.cpp:274-278 | a worker's share has floor(n / W) tasks, plus one iff its number is below n mod W |
| RoundRobin.ShareAt | Engine/src/delta/core/ThreadContext.cpp:276-278 | the j-th task of worker w's share is task w + j * W of the batch |
| RoundRobin.SharesPartition | Engine/src/delta/core/ThreadContext.cpp:274-278 | the shares together are the batch: every task is offered exactly once |
| Scheduler.Scheduler.ProcessTaskBatch | Engine/src/delta/core/ThreadContext.cpp:269-283 | undisturbed, the counter holds the length modulo 2^32, each queue what its share makes of it, sleepers are signalled once per task offered, exactly the tasks that found an over-full queue ran inline, each once and in order, and the queues grew by all others |
| Scheduler.Scheduler.Sync | Engine/src/delta/core/ThreadContext.cpp:285-314 | on return all queues are empty, each initial queue is what main stole in order followed by what the worker popped, the turns went round robin from worker 1 and ended after exactly one failure more in a row than there are workers, and main's arena is what the stolen tasks, each in its own scope, made of it |
| Scheduler.Scheduler.WorkerBurst | Engine/src/delta/core/Worker.cpp:39-58 | undisturbed, from waking to waiting a worker runs its queue newest first, counts every task down, keeps what the tasks' allocations made of its arena except the offset, which it resets, and announces the sleep |
| Scheduler.FillAppends | Engine/src/delta/core/ThreadContext.cpp:201-213 | a share that fits is appended whole |
| Scheduler.FillOverflows | Engine/src/delta/core/ThreadContext.cpp:201-213 | of a share that does not fit exactly one task too many is accepted, in place of the oldest entry and again as the newest |
| Scheduler.FillIsIntactIff | Engine/src/delta/core/ThreadContext.cpp:201-213 | a queue holds its old contents and a prefix of its share iff the share fits or the overwritten entry equals the overwriting one |
| Scheduler.FittingBatch | Engine/src/delta/core/ThreadContext.cpp:269-283 | if every share fits, each queue gains exactly its share and nothing runs inline |
| Scheduler.OfferTasksExact | Engine/src/delta/core/ThreadContext.cpp:274-282 | the loop, task by task, amounts to the distribution by shares, the signals by shares and the inline list |
| Scheduler.OfferedIsQueuedOrInline | Engine/src/delta/core/ThreadContext.cpp:274-282 | tasks offered are what the queues grew by and what ran inline |
| Scheduler.CountedDownExact | Engine/src/delta/core/Worker.cpp:47 | k decrements of a counter that holds at least k leave it k lower |
| BatchProtocol.EveryTaskClaimedOnce | Engine/src/delta/core/ThreadContext.cpp:269-314 | for every interleaving, missed wakeups included, when Sync returns each task of each share is completed, held by its worker, inline or stolen, exactly one of these, and the queues are empty |
| BatchProtocol.CounterIsExact | Engine/src/delta/core/Worker.cpp:46-47 | in every state the counter is the batch length minus the tasks completed by workers, never below the tasks without a decrement; zero means workers completed the whole batch |
| BatchProtocol.ResidueAfterSync | Engine/src/delta/core/ThreadContext.cpp:272-314 | after Sync the counter is exactly the number of inline, stolen and still held tasks |
| BatchProtocol.CounterCoversIff | Engine/src/delta/core/ThreadContext.cpp:272-314 | from any start of a batch: the counter never falls below the batch's unfinished tasks, in any run, iff the batch is empty or it is shorter than 2^32 and no worker still holds an earlier task |
| BatchProtocol.LeftoverTaskCorruptsCounter | Engine/src/delta/core/ThreadContext.cpp:272 | a task left over from an earlier batch, running or run, makes the counter one short of the new batch before anything of it was offered |
| BatchProtocol.SyncReturnsOverRunningTask | Engine/src/delta/core/ThreadContext.cpp:292-313 | a run from a quiescent start in which Sync returns while a worker runs its task, so that some run of whatever batch comes next has a counter that is too low |
| BatchProtocol.NextBatchIsFresh | Engine/src/delta/core/ThreadContext.cpp:285-314 | whatever workers still hold, Sync returns with drained queues and consistent sleep flags, where the next batch can start |
| BatchProtocol.WakeupCanBeMissed | Engine/src/delta/core/Worker.cpp:44-55 | a run after which the worker waits without a signal while its queue holds the task |
| BatchProtocol.WakeupMissedByOrder | Engine/src/delta/core/Worker.cpp:44-58 | a run of the loop as written leaves a worker waiting unsignalled over a task iff at some store of isAsleep main's push and main's look both fell since the worker's last access, its pop of an empty queue, with the task not stolen back and no older signal; with a second look at the queue no run does |
| BatchProtocol.WakeupMissedIff | Engine/src/delta/core/Worker.cpp:44-58 | the same by the state the store meets: a nonempty queue with no signal and no look of main's outstanding |
| BatchProtocol.RecheckMissesNoWakeup | Engine/src/delta/core/Worker.cpp:51-55 | with a second look after the store of isAsleep, a worker that waits unsignalled over a nonempty queue is one main is about to look at |
| BatchProtocol.WakeupMissedOnlyWhenDozingOff | Engine/src/delta/core/Worker.cpp:44-58 | whoever misses a wakeup does so since its latest store of isAsleep: its queue was nonempty then |
| BatchProtocol.RunKeepsInv | Engine/src/delta/core/Worker.cpp:39-59 | counter, books, sleep flags and drained queues stay consistent in every reachable state |
| BatchTheorems.SyncWalks | Engine/src/delta/core/ThreadContext.cpp:285-314 | the visits of main in any run of a batch are those of the walk from worker 1, one worker on after every steal, and main returns after exactly one failure more in a row than there are workers |
| BatchTheorems.SignalsAreConserved | Engine/src/delta/core/ThreadContext.cpp:280-281 | in every run what was in a worker's semaphore and one for every look that found it asleep is what is in it now and one for every return of the worker from its wait |
| BatchTheorems.QueuesAreDeques | Engine/src/delta/core/ThreadContext.cpp:269-314 | in every run each queue holds what a strict sequential deque holds after main's pushes, the worker's pops and main's steals with the outcomes they had |
| BatchTheorems.WorkerAlone | Engine/src/delta/core/Worker.cpp:39-59 | left alone, a worker settles within a bound fixed at the start: if it polls again it has run its queue newest first, counted every task down and spent all signals; if not, it waits over the queue it had |
| BatchTheorems.MainAlone | Engine/src/delta/core/ThreadContext.cpp:269-283 | left alone, main's accesses amount to the counter store, the distribution by shares and the signals of the batch loop |
| Arenas.ArenaSafety | Engine/src/delta/core/ThreadContext.cpp:323-361 | over any sequence of allocations, resets and scopes live blocks are aligned, inside the zone and pairwise disjoint, for the code as written and repaired |
| Arenas.RepairedRunsStayBacked | Engine/src/delta/core/ThreadContext.cpp:330-353 | with the repaired growth offset <= capacity <= maxCapacity, capacity is committed, and at every moment of every run, scopes included, every live block lies in committed pages |
| Arenas.BlockPlacement | Engine/src/delta/core/ThreadContext.cpp:325-355 | a block starts aligned, less than one alignment behind the old cursor, and ends at the new cursor inside the zone |
| Arenas.RefusalKeepsState | Engine/src/delta/core/ThreadContext.cpp:344-347 | without a block offset and capacity are unchanged |
| Arenas.RepairedExtension | Engine/src/delta/core/ThreadContext.cpp:340-349 | repaired growth is whole pages, covers the deficit and stays in the zone |
| Arenas.BlockIffServed | Engine/src/delta/core/ThreadContext.cpp:330-347 | a block is returned iff the request fits the zone and needs no growth, or a system call fails (repaired: both succeed); the assertion fires iff it does not fit the zone |
| Arenas.PagesAreWhole | Engine/src/delta/platform/os_win32.cpp:215-219 | committing a stretch of bytes commits exactly the pages that hold one of them |
| Arenas.FastPath | Engine/src/delta/core/ThreadContext.cpp:330-356 | without growth a block moves the offset behind it and leaves capacity and commitments alone, whatever the system would answer |
| Arenas.WrittenSlowPath | Engine/src/delta/core/ThreadContext.cpp:336-355 | when the code as written grows: result, capacity, offset and committed pages for every answer of the two system calls, the null return included |
| Arenas.RepairedSlowPath | Engine/src/delta/core/ThreadContext.cpp:336-355 | the same for the repaired growth |
| Arenas.WrittenBlockIsBackedIff | Engine/src/delta/core/ThreadContext.cpp:336-349 | from any arena state: a block handed out by the code as written lies in committed pages iff each of its bytes is committed already or lies in the pages from the capacity on that the slow path is about to commit |
| Arenas.WrittenFitsBelowMarkIff | Engine/src/delta/core/ThreadContext.cpp:336-349 | in numbers, for an arena in whole pages committed up to a mark: the block is empty, or ends below the mark, or ends within twice the rounded deficit without straddling uncommitted pages below the capacity |
| Arenas.WrittenRunIsBackedIff | Engine/src/delta/core/ThreadContext.cpp:323-361 | a run of the code as written keeps all live blocks in committed pages throughout, scopes included, iff every request that got a block met that condition |
| Arenas.WrittenHealthySystem | Engine/src/delta/core/ThreadContext.cpp:336-347 | when the system calls succeed, the code as written serves exactly the requests not larger than the capacity |
| Arenas.WrittenHandsOutUnbackedBlock | Engine/src/delta/core/ThreadContext.cpp:336-355 | once an arena's committed bytes are used up, every request up to its capacity that the zone holds gets a block without a single committed byte |
| Arenas.WrittenGrowthLeavesZoneIff | Engine/src/delta/core/ThreadContext.cpp:330-349 | one call of the code as written moves the capacity past the zone iff the request fits the zone but not the capacity, one of the system calls fails, and twice the rounded deficit does not fit any more |
| Arenas.ScopeIsNeutral | Engine/src/delta/core/ThreadContext.cpp:303-305 | a stolen task leaves main's offset and live blocks as they were and gets no block overlapping them |
| Arenas.ScopeIsAllocationsUndone | Engine/src/delta/core/ThreadContext.cpp:303-305 | a stolen task's allocations act on main's arena like ordinary ones, with only the offset and the live blocks put back |
| Arenas.ThreadArena.Allocate | Engine/src/delta/core/ThreadContext.cpp:323-356 | the object's new state and result are those of Allocated, the function the arena theorems are about |
| Arenas.ThreadArena.Reset | Engine/src/delta/core/ThreadContext.cpp:358-361 | only the offset changes, to zero |
| Arenas.ThreadArena.RunScoped | Engine/src/delta/core/ThreadContext.cpp:303-305 | after a stolen task the arena is as after a scope: the offset is back |
| Bits.AlignUpSpec | Engine/src/delta/core/ThreadContext.cpp:21 | for a power of two ALIGN rounds up to a multiple in [x, x + a) iff the 64-bit addition does not wrap; if it wraps the result is 0 |
| Bits.AlignUpIsLeast | Engine/src/delta/core/ThreadContext.cpp:21 | no multiple not below x is smaller than ALIGN's result |
| Bits.AndMaskIsMod | Engine/src/delta/core/ThreadContext.cpp:208 | `b & mask` is b modulo the ring's size |
| Layout.ZonesApart | Engine/src/delta/core/ThreadContext.cpp:89-171 | contexts, transient arenas, main's persistent arena and both halves of every queue are pairwise disjoint for every thread count and page size |
| Layout.ZoneInSlab | Engine/src/delta/core/ThreadContext.cpp:96-107 | every zone lies in the reserved slab |
| Layout.RunwayFillsSlab | Engine/src/delta/core/ThreadContext.cpp:99-133 | the threads' slices follow each other and end where the slab ends |
| Layout.HalvesFillQueueZone | Engine/src/delta/core/MemoryConfig.h:42-43 | tasks and payloads, placed by elements, fill a queue's zone exactly |
| Layout.WrittenHalvesApartIff | Engine/src/delta/core/ThreadContext.cpp:58-61 | placed by bytes, the halves are disjoint iff the queue has no entries |
| Layout.PushKeepsEntryIff | Engine/src/delta/core/ThreadContext.cpp:209-210 | a push leaves another entry alone, whatever is stored, iff the two are not exactly the payload displacement apart |
| Layout.KeepsLiveIff | Engine/src/delta/core/ThreadContext.cpp:58-61 | for any payload displacement d up to the ring's size: a push keeps all live entries iff neither the slot d before the one written nor the slot d behind it is live, unless the ring ends in between |
| Layout.LiveEntriesKept | Engine/src/delta/core/ThreadContext.cpp:58-61 | so a ring placed by elements keeps all live entries; placed by bytes, as long as fewer than an eighth of its slots are live |
| Layout.ArenaStartsBackedIff | Engine/src/delta/core/ThreadContext.cpp:64-81 | an arena as initialized starts in whole pages iff a page is no larger than its baseline |
| Layout.ForeignPointerIsFreedIff | Engine/src/delta/core/ThreadContext.h:69-73 | a pointer outside the slab is freed iff it is not the first address behind it |
| Contexts.Initialize | Engine/src/delta/core/ThreadContext.cpp:89-174 | the arenas lie in their zones with their baselines, the workers' queues are empty, separate and without counter, and the bytes requested for commitment are RequestedAtStart |
| Engine.EngineSafety | Engine/src/delta/core/engine.cpp:48-90 | after any calls by any threads every live block of every arena is aligned, in the slab, kept from the C heap and overlaps no other |
| Engine.EngineStaysBacked | Engine/src/delta/core/engine.cpp:48-84 | with the repaired growth, after any calls by any threads, every live block of every arena lies in committed pages of the arena's zone |
| Engine.StartsFresh | Engine/src/delta/core/engine.cpp:40-41 | before any call every arena of the engine is the one laid out for it, with nothing live |
| Engine.TransientComesFromHome | Engine/src/delta/core/engine.cpp:72-75 | after any calls, a transient request of thread i changes only thread i's transient arena, which, iff it can serve the request, gains one block of that size at its old cursor rounded up |
| Engine.PersistentComesFromMain | Engine/src/delta/core/engine.cpp:76-80 | the same for main's persistent requests and the persistent arena |
| Engine.OthersGetNothing | Engine/src/delta/core/engine.cpp:67-83 | a thread without a context, or a worker asking for persistent memory, changes no arena |
| Engine.ResetsEmptyTheirArena | Engine/src/delta/core/engine.cpp:53 | Update leaves main's transient arena, falling asleep the worker's, with no live block and its cursor at the start, and changes nothing else |
| Engine.StolenTaskStaysOnMain | Engine/src/delta/core/ThreadContext.cpp:303-305 | a stolen task changes only main's transient arena, as its requests one by one would, with offset and live blocks put back |
| Engine.Dispatch | Engine/src/delta/core/engine.cpp:63-84 | a thread is served only from an arena of its own address slice, without a context from the C heap, and refused iff a worker asks for persistent memory |
| MemoryConfig.ClosedFormIsSum | Engine/src/delta/core/MemoryConfig.cpp:37-38 | the closed form is the sum over threads of context, transient and role baselines |
| MemoryConfig.BudgetCoversRequested | Engine/src/delta/core/MemoryConfig.cpp:37-40 | for every thread count and every power-of-two page size of a uint32_t the rounded budget covers all bytes requested for commitment at initialization |
| MemoryConfig.BudgetCoversIff | Engine/src/delta/core/MemoryConfig.cpp:26-40 | for every power of two a size_t holds as page size, the rounded budget covers the bytes requested for commitment at initialization iff it exceeds the rounded context array |
| MemoryConfig.BudgetFallsShortOnHugePages | Engine/src/delta/core/MemoryConfig.cpp:26 | the size_t parameter admits pages as large as the whole budget, for which it never covers them; the engine itself passes a uint32_t, for which it always does |
| MemoryConfig.PoolCheckPassesIff | Engine/src/delta/core/MemoryConfig.cpp:41-42 | the assertion passes iff half of the allowed memory stays unlocked or the budget exceeds all of it |
| MemoryConfig.EngineMemoryConfig.Initialize | Engine/src/delta/core/MemoryConfig.cpp:26-47 | the five fields: 70 percent of memory, the budget within one page of the sum over threads, the pool as the difference modulo 2^64, wrapped or not, and the assertion's outcome as budget <= pool and in terms of the inputs |

## Left out

- Memory orders: fences and `std::memory_order` arguments are taken to give sequentially consistent interleaving.
- Index overflow: `top` and `bottom` are unbounded integers; wrapping an int64_t takes 2^63 pushes.
- SharedOwner.PushesInsidePop: pushes that fit the ring's free slots; what one more does to a full ring is in `CrowdedPushOverwritesOldest`.
- DequeStrict.EveryRunLinearizesStrictly: while the owner's pop is claiming the last entry, the history is completed by that pop first.
- MemoryConfig.BudgetCoversRequested: counts the bytes passed to `Memory_Commit`; with pages larger than a baseline the system commits more.
- One owner: the queue theorems assume that pushes and pops of one queue do not overlap. The batch loop breaks this; `Overlap` gives the outcomes for one push and one pop with no steal in between (main, the only thief, is the one pushing), `BatchProtocol` and `Scheduler` treat queue operations as atomic, `SyncMachine` starts when the pushes are over.
- Overlap.EveryOverlap: one push and one pop from a queue at rest with a free slot; the state after an outcome that is not harmless is not carried on into further operations.
- Scheduler.Scheduler.ProcessTaskBatch: the loop runs undisturbed; what workers do meanwhile is in `BatchProtocol`.
- Scheduler.Scheduler.WorkerBurst: nobody pushes or steals during the burst; those interleavings are in `BatchProtocol` and `SyncMachine`.
- BatchProtocol.EveryTaskClaimedOnce: with the full test as written, for batches whose shares fit the rings; `Scheduler.FillIsIntactIff` says what a larger share does to its queue.
- Scheduler.Scheduler: holds each queue's contents as a sequence instead of the queue object; the update of slots in place is in `TaskQueues.TaskQueue`, which meets the same operations' contracts.
- TaskQueues.TaskQueue: its two arrays are separate objects; their overlap in memory as written is in `Layout`.
- Contexts.Initialize: the counter pointer stays null as in the code, so a worker's first decrement is undefined behaviour; `BatchProtocol` is about the counter once bound.
- Arenas.ThreadArena.Allocate: the assertion on the zone's end is taken to stop the program (result Overflown); with assertions compiled out the code goes on past the zone.
- Arenas.ArenaSafety: sizes, alignments and addresses below 2^62, so that the 64-bit sums do not wrap; `Bits.AlignUpSpec` says what ALIGN does when they would.
- Layout.ZonesApart: fewer than 2^26 threads, so that the reservation fits the address space; the size of a context record is a parameter.
- Operating system: reserving is taken to succeed, committing and locking succeed or fail by parameter, a semaphore is a natural number; threads, timers, core affinity and CPUID are not modelled.
- Tasks: opaque, may allocate from the current arena, neither enqueue nor reset. The assertion in `Scheduler_Sync` that task and payload are not null is not modelled.
- Shutdown: nothing in the code sets `shouldClose`, so the worker loop runs forever and is modelled without that test.
- Launcher, hot reload, DeltaTrigger and the example game.
