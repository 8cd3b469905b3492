# Vyb: verified models

Dafny models of the parts of Vyb whose correctness rests on an invariant over unbounded runs or on two
programs undoing each other, with the proofs of those invariants. The project has no dependencies;
`dafny verify dfyconfig.toml` checks all of it.

| modules | what they model |
|---|---|
| `FiberPool`, `FiberPoolInvariant`, `FiberPoolRuns`, `FiberPoolTheorems`, `FiberPoolDrain`, `FiberPoolProgress`, `FiberPoolWakeups`, `FiberPoolDelivery`, `FiberPoolTurns`, `Executor` | the fiber executor: ready queues, timers, waiter lists, I/O waits, detach, and the drain that reclaims everything |
| `ProbeTable`, `Registry` | the reference-counted string registry as an open-addressing table that refines a map |
| `GuardProtocol`, `GuardInvariant`, `GuardRuns` | the same registry with lock-free readers running against growth and retirement, step by step |
| `Exchange` | the full-duplex framed exchange over two bounded byte pipes |
| `JsonText`, `Json`, `JsonAppend`, `JsonRoundTrip`, `JsonBalance`, `JsonExact`, `JsonForeign`, `JsonLiteral`, `JsonLayout`, `JsonBuffer`, `JsonReader`, `JsonDocument` | the type-directed JSON printer and reader |
| `ModuleResolver`, `ImportClosure` | the module resolver's depth-first search, and the dependency closure of an import |
| `Precedence`, `MacroExpr`, `MacroDerivation`, `MacroParsers`, `MacroTranslate` | the two precedence-climbing parsers for C macro bodies |
| `Utf8` | the strict UTF-8 decoder and its callers |
| `StringChannel`, `ChannelRefs` | String channels, and who owns the references that pass through them |
| `ThreadSlots`, `Agents` | the fixed thread table, and the generational handles of the agent table |

## How the models are built

Concurrent code is a transition system. A step is one critical section, or one unlocked memory access where
that matters, and a property is proved for every reachable state. `Reachable` always means the end of a
finite run from the initial state. Steps of different threads interleave freely, under sequential consistency.

Code that changes state in place is also written as a class with methods in the source's own order, and each
method's postcondition ties the new state to a function of the old one: `Executor.Scheduler`,
`Registry.StringRegistry`, `Exchange.Call`, `JsonBuffer.JsonBuf`, `JsonReader.Cursor`,
`ModuleResolver.Resolver`, `MacroParsers.IntEval`, `MacroTranslate.MacroExprParser`,
`StringChannel.Channel`, `ThreadSlots.ThreadTable`, `Agents.AgentTable`. The theorems are then about
those functions.

Executor. A pool is a value: tasks by number, one ready queue per worker, the timer list, a waiter list per
task, the I/O wait list, what each worker's stack is doing, and the counters. Between unlocking and switching
stacks a fiber is already queued but still on its stack; that gap is a step of its own (`SwapOut`). `run_all`
is two steps with anything in between: it sees the pool quiescent (`SeeQuiet`), and it reclaims (`Cleanup`).
A cleanup that frees a record something still uses is the last step of its run, since what follows is undefined.

Registry. Slots hold a pointer and a count; pointer 0 is an empty slot and pointer 1 a tombstone. The pointer
hash is an arbitrary function, and the capacity mask of a power of two is a remainder. In the interleaved model every atomic
load and store of the reader guard, of growth and of the two-phase release is its own step.

JSON. Types are Int, Bool, String, Vec and named structs or enums, which may be recursive. A printing function
takes the text that follows; a reading function takes the text under the cursor and the slot's old value, and
returns the new value and what is left unread. `Unset` stands for a slot nothing was written to. Texts that the
printer would not write are covered by `Renders`, which allows any white space, escapes, field order and numerals.

Macro bodies. Tokens are symbols or words. The arithmetic is a parameter, so the results hold for any meaning
of the operators; only a zero divisor is fixed, as a failure. What an expression means is also given without trees
or parsers, by productions over token lists with a rule for each operator (`Derives`).

## Findings

- `run_all` drops the lock between seeing the pool quiescent and reclaiming it, and threads outside the pool may
  spawn and await in that window. Over all runs the cleanup frees a task that could still run, or is on a stack, if
  and only if some task spawned since the check is queued, timed, waiting for I/O or on a stack, that is, if the pool
  is not quiescent again (`CleanupIsUnsafeExactly`). "Could still run" is itself exact: some continuation executes the
  task (`CouldRunExactly`). A task spawned and finished within the window does no harm.
- The quiescence test does not look at a thread parked in an await. A cleanup frees that thread's task under it.
  A thread parked on a task that was there at the check can get away in time if and only if that task is done
  (`AwaiterEscapesExactly`); in any state, if and only if its task is done or could still run (`AwaiterLeavesExactly`).
- Registering a pointer that is already registered is safe exactly when its probe meets no tombstone before
  its slot; otherwise the table holds the pointer twice (`ReRegistering`).
- A struct without fields prints as `{}` and the reader leaves its closing brace, so fields behind it are lost
  (`EmptyStructDropsTheRest`). A String with a NUL is cut there. An undeclared enum tag prints as `null`, which is
  not read back. The round trip holds exactly for the values that have none of these (`RoundTrip`).
- Lines 3418-3419 of the repository's README say unknown JSON fields are skipped. The reader consumes the name
  and then stops in front of the value. So a field of a printed object arrives if and only if no undeclared name stands
  before it (`ForeignObject`). The model follows the code.
- A comment says the I/O pump delivers a result to the waiting fiber. The pump stores the events in the wait
  entry, which it then frees, so every I/O wait returns 0, whatever fired (`IoWaitReturnsZero`).
- A conditional macro gets the type of its first branch. The type is right when the branches of every `?:` agree
  (`TypeIsSound`), and wrong for an Int first branch and a Float second one whenever the second is taken (`FirstBranchDecides`).
- An agent whose thread cannot be created leaves its slot's tag marked used, until the next thing that happens to
  the slot (`StaleExactly`). No returned handle is affected (`HandlesAreSound`).
- An agent's handle names its slot only while the generation, modulo 2^63, is below 2^43 (`GenerationLimit`). Handles
  repeat every 2^44 generations of a slot (`HandlesCollideExactly`).

## Model

| member | source | states |
|---|---|---|
| `FiberPoolTheorems.PlacementIsUnique` | runtime/vyb_runtime.c:4257-4317 | in every reachable state a live task that is neither done nor running is on exactly one of its home worker's queue, the timer list, one task's waiter list and the I/O list, nothing else is on any of them, no list repeats, and the three counters are the list lengths |
| `FiberPoolTheorems.QuiescenceIsSound` | runtime/vyb_runtime.c:4294-4299 | in a reachable quiescent state every live task is done if and only if the await relation has no cycle |
| `FiberPoolTheorems.ChainFindsCycle` | runtime/vyb_runtime.c:4490-4503 | in a quiescent state any chain of undone awaiting tasks leads to an await cycle, by counting the finitely many tasks |
| `FiberPoolTheorems.QuietUntilSpawn` | runtime/vyb_runtime.c:4474-4482 | a step taken in a quiescent state leaves it quiescent if and only if it is not a spawn |
| `FiberPoolDrain.CleanupIsUnsafeExactly` | runtime/vyb_runtime.c:4479-4482 | in every reachable state with a run_all past its check, its cleanup frees a task that could still run or is on a stack if and only if a task spawned since the last check is queued, timed, waiting for I/O or on a stack, which holds if and only if the pool is not quiescent |
| `FiberPoolDrain.AwaiterEscapesExactly` | runtime/vyb_runtime.c:4505-4519 | a cleanup frees the task of a parked outside awaiter; an awaiter of a task that run_all saw leaves its wait in some continuation if and only if that task is done |
| `FiberPoolProgress.AwaiterLeavesExactly` | runtime/vyb_runtime.c:4505-4519 | in every reachable state an outside awaiter leaves its wait in some continuation if and only if its task is done or could still run |
| `FiberPoolProgress.CouldRunExactly` | runtime/vyb_runtime.c:4301-4419 | a task's awaits lead to a queued, timed, I/O-waiting or executing task if and only if some continuation of the run executes it |
| `FiberPoolProgress.RunPath` | runtime/vyb_runtime.c:4301-4419 | from any state of the invariant the last task of a chain of awaits can be executed and finished, and so on up to the first |
| `FiberPoolProgress.RunQueued` | runtime/vyb_runtime.c:4372-4420 | whatever is queued can be executed, the fibers in front of it yielding in turn |
| `FiberPoolDrain.StuckForever` | runtime/vyb_runtime.c:4490-4503 | a task whose awaits lead to nothing scheduled is never scheduled or finished again in any continuation |
| `FiberPoolDrain.StepStill` | runtime/vyb_runtime.c:4257-4743 | a set of tasks that are on no list and no stack and wait only on each other stays so under every step |
| `FiberPoolDrain.RunWindow` | runtime/vyb_runtime.c:4474-4482 | in every state of every run the tasks that the last run_all past its check saw stay put until its cleanup |
| `FiberPoolProgress.IoWaitReturnsZero` | runtime/vyb_runtime.c:4692-4760 | in every reachable state a captured fiber whose descriptor fired is queued by the delivery with an I/O result of 0, whatever fired, and so is every other task's |
| `FiberPoolDelivery.FinishDelivers` | runtime/vyb_runtime.c:4301-4317 | when a fiber's function returns r, its task is done with result r, every fiber that waited for it has been handed r and is ready, and no other task changes |
| `FiberPoolDelivery.ReturnedIsAwaited` | runtime/vyb_runtime.c:4301-4519 | in every continuation of a run after a function returned r, the task's result is r and every fiber resumed inside an await of it finds r |
| `FiberPoolDelivery.SleepSleeps` | runtime/vyb_runtime.c:4602-4610 | a fiber that sleeps ms at time now is on the timer list with wake time now + ms |
| `FiberPoolDelivery.SleepLasts` | runtime/vyb_runtime.c:4602-4612 | over every run it sleeps through each step that is not a scheduler turn at or past now + ms |
| `FiberPoolDelivery.SleepEnds` | runtime/vyb_runtime.c:4281-4290 | the first such turn, of whatever worker, queues it at home or runs it |
| `FiberPoolDelivery.DeliverExactly` | runtime/vyb_runtime.c:4692-4710 | a delivery moves from the wait list to their queues exactly the captured fibers that fired, and leaves every other task as it was |
| `FiberPoolTurns.TurnIsExact` | runtime/vyb_runtime.c:4376-4400 | a turn appends exactly the due timers to their home queues in order and then runs the head of its own, so a worker stays idle only if nothing is queued to it or due |
| `FiberPoolTurns.AwaitSuspends` | runtime/vyb_runtime.c:4490-4502 | a fiber that awaits an undone task is blocked and first among its waiters |
| `FiberPoolTurns.FinishIsExact` | runtime/vyb_runtime.c:4308-4315 | a finish appends the waiters, newest first, to their home queues and moves nothing else |
| `FiberPoolTurns.RoundRobin` | runtime/vyb_runtime.c:4464 | in every reachable state task number t is at home on worker t modulo the number of workers |
| `FiberPoolTurns.WakeFieldIsExact` | runtime/vyb_runtime.c:4214 | in every reachable state a task that is not on the timer list has wake time -1 |
| `FiberPoolWakeups.RunAllIsWoken` | runtime/vyb_runtime.c:4376-4400 | in every run a run_all that sleeps while the pool is quiescent has a worker on its way to its queue, whose turn makes the broadcast |
| `FiberPoolWakeups.QuietOnlyByLeaving` | runtime/vyb_runtime.c:4294-4299 | no step but a fiber leaving its stack makes a busy pool quiescent |
| `FiberPoolTheorems.SpawnInWindowIsLost` | runtime/vyb_runtime.c:4479-4482 | a task spawned right before a cleanup is queued, was never dispatched, and is freed undone |
| `FiberPoolTheorems.OneStack` | runtime/vyb_runtime.c:4372-4419 | a fiber is on at most one worker's stack, and that worker is its home |
| `FiberPoolTheorems.FreeingIsSafe` | runtime/vyb_runtime.c:4361-4441 | a task is freed once, only by a cleanup or when detached, done and off its stack, and afterwards it is in no list and on no stack unless a cleanup found the pool no longer quiescent |
| `FiberPoolTheorems.StepLife` | runtime/vyb_runtime.c:4372-4441 | every step keeps homes, keeps results of done tasks, and raises a task's free count at most from 0 to 1 and only under the conditions for freeing |
| `FiberPoolTheorems.HomesAreFixed` | runtime/vyb_runtime.c:4464-4465 | no step moves a task to another worker |
| `FiberPoolTheorems.ResultsAreFinal` | runtime/vyb_runtime.c:4301-4317 | a done task stays done with the same result |
| `FiberPoolTheorems.AwaitReturnsResult` | runtime/vyb_runtime.c:4490-4503 | a fiber about to be resumed inside an await has been handed the result of the task it awaited, which is done |
| `FiberPoolTheorems.DispatchInPushOrder` | runtime/vyb_runtime.c:4258-4267 | everything ever pushed to a worker is what it has dispatched followed by its queue, in push order |
| `FiberPoolTheorems.FireDueIsExact` | runtime/vyb_runtime.c:4281-4290 | firing removes exactly the entries due at or before now, a prefix of the list, and appends them in order to their home queues |
| `FiberPoolTheorems.CapturesStayRegistered` | runtime/vyb_runtime.c:4674-4709 | an entry the pump captured before polling is still registered, live and blocked when the poll returns |
| `FiberPoolInvariant.InsertByWakeKeeps` | runtime/vyb_runtime.c:4270-4278 | timer insertion keeps the list ascending, free of repeats and complete |
| `FiberPoolInvariant.InsertByWakeSplits` | runtime/vyb_runtime.c:4270-4278 | the new timer is inserted at one place, with only entries due no later before it and a strictly later one right behind it, and the order of the rest is kept |
| `FiberPoolInvariant.PushPlaces` | runtime/vyb_runtime.c:4258-4267 | pushing a task that has no place gives it one, and keeps the placement of all others |
| `FiberPoolInvariant.AddTimerPlaces` | runtime/vyb_runtime.c:4602-4610 | a sleeping fiber moves to the timer list and nothing else moves |
| `FiberPoolInvariant.AddWaiterPlaces` | runtime/vyb_runtime.c:4496-4502 | an awaiting fiber moves to the awaited task's waiter list and nothing else moves |
| `FiberPoolInvariant.AddIoPlaces` | runtime/vyb_runtime.c:4730-4741 | a fiber waiting for a descriptor moves to the I/O list and nothing else moves |
| `FiberPoolInvariant.FireDuePlaces` | runtime/vyb_runtime.c:4281-4290 | firing keeps every task's placement exact |
| `FiberPoolInvariant.WakeWaitersPlaces` | runtime/vyb_runtime.c:4301-4317 | serving a finished task's waiters requeues each of them once and leaves its list empty |
| `FiberPoolInvariant.WakeIoPlaces` | runtime/vyb_runtime.c:4692-4710 | delivering poll results requeues each ready captured fiber once |
| `FiberPoolInvariant.DispatchPlaces` | runtime/vyb_runtime.c:4372-4400 | a dispatch takes the head of the worker's own queue onto its stack |
| `FiberPoolRuns.StepPlaces` | runtime/vyb_runtime.c:4257-4743 | every step of the executor keeps the placement invariant |
| `FiberPoolRuns.SpawnPlaces` | runtime/vyb_runtime.c:4447-4470 | a spawned task starts on its home queue |
| `FiberPoolRuns.FinishPlaces` | runtime/vyb_runtime.c:4301-4317 | a finishing fiber keeps the invariant through recording, waking and leaving |
| `FiberPoolRuns.LeaveStackPlaces` | runtime/vyb_runtime.c:4414-4420 | coming back to the scheduler keeps the invariant, reaping or not |
| `FiberPoolRuns.DetachPlaces` | runtime/vyb_runtime.c:4551-4564 | detaching keeps the invariant, reclaiming or not |
| `FiberPoolRuns.CleanupPlaces` | runtime/vyb_runtime.c:4424-4441 | the cleanup of a quiescent pool keeps the invariant |
| `FiberPoolRuns.QuietWaits` | runtime/vyb_runtime.c:4294-4299 | in a quiescent state every live undone task waits for another task |
| `FiberPoolRuns.RunInv` | runtime/vyb_runtime.c:4257-4743 | every state of every run satisfies the placement invariant |
| `Executor.Scheduler.constructor` | runtime/vyb_runtime.c:4337-4359 | a new pool is the idle state and satisfies the invariant |
| `Executor.Scheduler.ReadyPush` | runtime/vyb_runtime.c:4258-4267 | the push on the home queue, counter included |
| `Executor.Scheduler.TimerAdd` | runtime/vyb_runtime.c:4270-4278 | the walk through the list inserts where the specification does |
| `Executor.TimerSpot` | runtime/vyb_runtime.c:4273-4277 | the walk stops where insertion splits the list |
| `Executor.Scheduler.FireDueTimers` | runtime/vyb_runtime.c:4281-4290 | the firing loop computes the specified state |
| `Executor.Scheduler.DispatchHead` | runtime/vyb_runtime.c:4381-4400 | the head of the queue goes onto the worker's stack |
| `Executor.Scheduler.TakeWorkerTurn` | runtime/vyb_runtime.c:4376-4400 | a scheduler turn fires due timers, then dispatches, and keeps the invariant |
| `Executor.Scheduler.SpawnFiber` | runtime/vyb_runtime.c:4447-4470 | a spawn is the specified step and keeps the invariant |
| `Executor.Scheduler.YieldFiber` | runtime/vyb_runtime.c:4568-4576 | a yield is the specified step and keeps the invariant |
| `Executor.Scheduler.SleepFiber` | runtime/vyb_runtime.c:4602-4612 | a sleep is the specified step, puts the fiber on the timer list until now + ms, and keeps the invariant |
| `Executor.Scheduler.AwaitTask` | runtime/vyb_runtime.c:4490-4504 | an await of an undone task suspends on its waiter list, of a done one returns at once |
| `Executor.Scheduler.AwaitIo` | runtime/vyb_runtime.c:4720-4743 | an I/O wait clears its result, then registers, or requeues when the pump cannot take the descriptor |
| `Executor.Scheduler.WakeAll` | runtime/vyb_runtime.c:4301-4317 | the walk over the detached waiter list serves each waiter as the specification does |
| `Executor.Scheduler.Conclude` | runtime/vyb_runtime.c:4301-4319 | the trampoline's order of writes equals the specified finish, and the task ends done with the returned value |
| `Executor.Scheduler.FinishFiber` | runtime/vyb_runtime.c:4301-4319 | a finish hands the returned value to every waiter, is the specified step and keeps the invariant |
| `Executor.Scheduler.BackOnScheduler` | runtime/vyb_runtime.c:4411-4420 | the return to the scheduler marks the fiber off its stack and reaps a detached done one |
| `Executor.Scheduler.DetachHandle` | runtime/vyb_runtime.c:4551-4564 | a detach returns -2 exactly without a handle, -1 exactly when already detached, -3 exactly when awaited, changes nothing then, and otherwise is the specified step |
| `Executor.Scheduler.CapturePolled` | runtime/vyb_runtime.c:4674-4680 | the pump captures the wait list |
| `Executor.Scheduler.WakeCaptured` | runtime/vyb_runtime.c:4693-4709 | the loop over the captured entries takes exactly the ones that fired off the wait list and requeues them |
| `Executor.Scheduler.DeliverPolled` | runtime/vyb_runtime.c:4692-4710 | a delivery is the specified step and keeps the invariant |
| `Executor.Scheduler.AwaitOutside` | runtime/vyb_runtime.c:4505-4511 | an await from outside the pool returns the result of a done task at once and parks otherwise |
| `Executor.Scheduler.ResumeOutside` | runtime/vyb_runtime.c:4512-4518 | the parked thread leaves with the result of its task, which is done |
| `Executor.Scheduler.LooksQuiet` | runtime/vyb_runtime.c:4294-4299 | the test over counters and workers holds exactly in a quiescent pool |
| `Executor.Scheduler.LookForQuiet` | runtime/vyb_runtime.c:4474-4481 | run_all leaves its wait loop exactly when the pool is quiescent, and nothing else changes |
| `Executor.Scheduler.CleanupAll` | runtime/vyb_runtime.c:4424-4441 | the cleanup frees every task that was not freed before, each exactly once, and keeps the invariant if nothing was in use |
| `ProbeTable.InsertKeeps` | runtime/vyb_runtime.c:260-273 | writing a new pointer where its insertion probe stops keeps every pointer reachable through non-empty slots and unique, and adds it to the map |
| `ProbeTable.RetireKeeps` | runtime/vyb_runtime.c:481-491 | a tombstone keeps the other pointers reachable and removes the entry from the map |
| `ProbeTable.CountKeeps` | runtime/vyb_runtime.c:453-476 | changing a count keeps the table and updates the map |
| `ProbeTable.ProbeProvesAbsent` | runtime/vyb_runtime.c:276-289 | a probe that reaches an empty slot, or goes all the way round, proves the pointer is not in the table |
| `ProbeTable.NullSlotExists` | runtime/vyb_runtime.c:358-386 | live plus tombstone slots never exceed the capacity, and an empty slot exists exactly when they are fewer |
| `Registry.RoundDown` | runtime/vyb_runtime.c:160-191 | the setting is rounded down to a power of two |
| `Registry.WantedCapacity` | runtime/vyb_runtime.c:377-384 | doubling gives a power of two that is large enough, or the ceiling, and never less than the present capacity |
| `Registry.PlaceEntry` | runtime/vyb_runtime.c:319-329 | the inner rehash loop inserts one entry into the new table |
| `Registry.CopySlots` | runtime/vyb_runtime.c:313-330 | the outer rehash loop copies exactly the live entries and counts them |
| `Registry.StringRegistry.constructor` | runtime/vyb_runtime.c:160-191 | the initial table is empty, with the ceiling and capacity the setting asks for |
| `Registry.StringRegistry.RoomyMeansNullSlot` | runtime/vyb_runtime.c:358-386 | below the ceiling the table is roomy exactly when it has an empty slot |
| `Registry.StringRegistry.LookupSlot` | runtime/vyb_runtime.c:276-289 | the lookup probe finds the pointer's slot exactly when the map has it |
| `Registry.StringRegistry.InsertSlot` | runtime/vyb_runtime.c:260-273 | the insertion probe finds the first slot that is free or holds the pointer already, and none exactly when every slot is live and none holds it |
| `Registry.StringRegistry.Rehash` | runtime/vyb_runtime.c:305-342 | a rehash is the identity on the map, clears tombstones and churn, and happens exactly when allocation succeeds and the table does not shrink |
| `Registry.StringRegistry.Grow` | runtime/vyb_runtime.c:348-356 | growth succeeds exactly when memory is there and the ceiling is not reached |
| `Registry.StringRegistry.MaybeResize` | runtime/vyb_runtime.c:371-386 | after the check, with memory available, the table is at its ceiling or has room for one more beside its tombstones |
| `Registry.StringRegistry.RegisterRefs` | runtime/vyb_runtime.c:389-433 | registering a new pointer inserts it into the map, and with allocation succeeding the fatal path is taken exactly when live slots, capacity and ceiling are equal |
| `Registry.StringRegistry.SlotFor` | runtime/vyb_runtime.c:397-412 | a new pointer gets a slot unless every slot is live and the table cannot grow |
| `Registry.StringRegistry.Publish` | runtime/vyb_runtime.c:413-430 | writing the entry inserts into the map and keeps both occupancy counters equal to the true slot counts |
| `Registry.StringRegistry.Retain` | runtime/vyb_runtime.c:453-462 | a retain increments the pointer's count and leaves an unregistered pointer alone |
| `Registry.StringRegistry.Release` | runtime/vyb_runtime.c:465-493 | a release decrements, or deletes the entry and frees the buffer on the last reference |
| `Registry.StringRegistry.Retire` | runtime/vyb_runtime.c:481-491 | the last release leaves a tombstone and keeps the occupancy counters exact |
| `Registry.ReRegistering` | runtime/vyb_runtime.c:260-273 | registering a pointer that is present hits its own slot exactly when no tombstone comes before it, and otherwise breaks uniqueness |
| `GuardRuns.NoFreedTable` | runtime/vyb_runtime.c:199-210 | a reader inside the guard always works on the published, unfreed table with its true capacity, and a slot it found still holds its pointer |
| `GuardRuns.NothingIsLost` | runtime/vyb_runtime.c:305-342 | in every reachable state the published table refines the map, every count is the number of references held or carried by running calls, and a probe that missed was for a pointer that is not registered |
| `GuardRuns.HeldIsNotFreed` | runtime/vyb_runtime.c:453-493 | a string that anyone holds, or that a call works on, is not freed |
| `GuardRuns.LastReleaseRetires` | runtime/vyb_runtime.c:465-493 | a release that took the last reference still finds its own entry when it gets the lock, whatever rehash came between, and no other thread retires it |
| `GuardRuns.ProbeFinds` | runtime/vyb_runtime.c:276-289 | each step of a reader's probe keeps its promise that the pointer is not behind it |
| `GuardRuns.InvStep` | runtime/vyb_runtime.c:199-493 | every interleaved step of readers, grower, registrars and retirers keeps the protocol invariant |
| `GuardRuns.ReaderSteps` | runtime/vyb_runtime.c:199-210 | entering the guard, reading the table and probing keep the invariant |
| `GuardRuns.TouchStep` | runtime/vyb_runtime.c:453-476 | the atomic change of a count inside the guard keeps the invariant |
| `GuardRuns.PublishTableStep` | runtime/vyb_runtime.c:331-334 | publishing the grown table, with no reader inside, keeps the invariant |
| `GuardRuns.RetireTombStep` | runtime/vyb_runtime.c:484-489 | writing the tombstone under the lock keeps the invariant |
| `Exchange.HeaderRoundTrip` | runtime/vyb_runtime.c:1894-1925 | decoding undoes encoding for every length that fits the header |
| `Exchange.SendableExactly` | runtime/vyb_runtime.c:1893-1895 | the header carries exactly the lengths below 2^64 |
| `Exchange.EncodeHeader` | runtime/vyb_runtime.c:1894 | the header loop writes the length in little-endian order |
| `Exchange.DecodeHeader` | runtime/vyb_runtime.c:1924-1925 | the header loop reads it back |
| `Exchange.GotIsPrefix` | runtime/vyb_runtime.c:1917-1930 | what a peer has read is a prefix of the frame it is reading, so a complete header tells the true length |
| `Exchange.StepKeeps` | runtime/vyb_runtime.c:1900-1937 | every send, receive and completed call keeps both streams aligned to the sender's frames, at most one round apart |
| `Exchange.NoDeadlock` | runtime/vyb_runtime.c:1879-1953 | with room for one byte each way, while frames are missing and none was refused, some step is enabled |
| `Exchange.StepConsumes` | runtime/vyb_runtime.c:1900-1937 | every step lowers the bytes and rounds still to go |
| `Exchange.StuckStates` | runtime/vyb_runtime.c:1879-1953 | a state without steps is completed or refused, never both, and it is refused exactly when some payload is over its receiver's limit |
| `Exchange.ExchangeCompletes` | runtime/vyb_runtime.c:1879-1953 | every run of any number of rounds is bounded, delivers only whole payloads in order, and at its end has delivered everything with empty pipes unless a payload was over the limit |
| `Exchange.CompletionExists` | runtime/vyb_runtime.c:1879-1953 | an exchange within the limits can always be carried to its end |
| `Exchange.Call.constructor` | runtime/vyb_runtime.c:1893-1900 | a call starts with nothing sent and nothing read |
| `Exchange.Call.Offer` | runtime/vyb_runtime.c:1902-1910 | the two-part vector is the unsent rest of the frame |
| `Exchange.Call.Sent` | runtime/vyb_runtime.c:1911-1912 | bytes the socket took advance the frame |
| `Exchange.Call.Ask` | runtime/vyb_runtime.c:1917-1920 | the call never asks for a byte of the next frame |
| `Exchange.Call.Arrived` | runtime/vyb_runtime.c:1921-1937 | received bytes extend the frame, the length is refused exactly when over the limit, and the call is finished exactly when both frames are |
| `JsonExact.RoundTrip` | runtime/vyb_type_metadata.c:89-446 | for every well-typed value and delimited suffix, the reader gives back the value and leaves exactly the suffix if and only if no string holds a NUL, no struct is without fields and every tag is declared |
| `JsonExact.Unread` | runtime/vyb_type_metadata.c:333-446 | a value with an empty struct or an undeclared tag leaves the reader inside an unclosed brace or in front of a null, whatever follows |
| `JsonExact.EmptyStructDropsTheRest` | runtime/vyb_type_metadata.c:373-394 | behind a field whose struct has no fields, every field of a printed object stays unset |
| `JsonExact.UnknownFieldStops` | runtime/vyb_type_metadata.c:380-392 | behind a name the struct does not declare, the reader stops in front of the value and reads no more fields |
| `JsonExact.UndeclaredTagIsNull` | runtime/vyb_type_metadata.c:142-150 | an enum slot with an undeclared tag prints as null, and reading that changes nothing and consumes nothing |
| `JsonForeign.ForeignObject` | runtime/vyb_type_metadata.c:373-394 | of an object printed from one layout and read at another, a field gets the value printed for its name if and only if that name was printed and no undeclared name stands before it, stays unset otherwise, and what is left unread is exactly known |
| `JsonForeign.ForeignFields` | runtime/vyb_type_metadata.c:376-393 | from any field on, the object loop fills the slots of the declared names up to the first undeclared one |
| `JsonRoundTrip.FillPrinted` | runtime/vyb_type_metadata.c:396-446 | reading a printed value gives it back with strings cut at a NUL, and leaves what followed |
| `JsonRoundTrip.FillPrintedElems` | runtime/vyb_type_metadata.c:416-437 | the array loop reads back a printed Vec, the empty one included |
| `JsonRoundTrip.FillPrintedStruct` | runtime/vyb_type_metadata.c:373-394 | the object loop reads back every field of a printed struct |
| `JsonRoundTrip.FillPrintedEnum` | runtime/vyb_type_metadata.c:333-371 | the enum reader reads back tag and payload of a printed variant |
| `JsonRoundTrip.TruncateExact` | runtime/vyb_type_metadata.c:402-407 | cutting strings at a NUL changes a value exactly when some string holds one |
| `JsonBalance.FillDepth` | runtime/vyb_type_metadata.c:396-446 | no read consumes more closing braces than opening ones, on any text |
| `JsonBalance.PrintDepth` | runtime/vyb_type_metadata.c:142-223 | printed text has balanced braces |
| `JsonAppend.PrintAppend` | runtime/vyb_type_metadata.c:142-223 | printing in front of a text is printing, then that text |
| `JsonText.EscapedUndone` | runtime/vyb_type_metadata.c:284-326 | reading undoes the printer's escapes for every character |
| `JsonText.EscapedIsJson` | runtime/vyb_type_metadata.c:89-117 | every printed literal is a string of section 7 of RFC 8259 |
| `JsonLiteral.LiteralRead` | runtime/vyb_type_metadata.c:284-326 | the reader turns the inside of any literal into the characters the table of section 7 of RFC 8259 gives, with code points from 128 on and unknown escapes as question marks, and stops behind the closing quote |
| `JsonLiteral.QuotedLiteralRead` | runtime/vyb_type_metadata.c:284-326 | likewise for the whole literal behind any white space |
| `JsonLiteral.PrintedStands` | runtime/vyb_type_metadata.c:89-117 | what the printer writes for a string stands for that string by the same table |
| `JsonLayout.FillRendered` | runtime/vyb_type_metadata.c:333-446 | of any text that renders a value, whatever its white space, escapes, numerals and field order, the reader makes that value, and leaves what follows |
| `JsonLayout.RenderedObject` | runtime/vyb_type_metadata.c:373-394 | a slot of an object read at a layout gets the last entry for its name, and stays unset without one |
| `JsonLayout.UnknownVariant` | runtime/vyb_type_metadata.c:333-371 | under an undeclared variant name the slot keeps its value and the reader stops in front of the payload |
| `JsonLayout.NumeralRead` | runtime/vyb_type_metadata.c:265 | any numeral, leading zeros and sign included, reads as its value or the nearest 64-bit integer |
| `JsonLayout.SpacedNumeralRead` | runtime/vyb_type_metadata.c:265 | likewise behind any white space of C |
| `JsonLayout.NoNumeralRead` | runtime/vyb_type_metadata.c:265 | where no digit follows, 0 is read and nothing consumed |
| `JsonLayout.PrintRenders` | runtime/vyb_type_metadata.c:142-223 | every readable value is printed as a rendering of it |
| `JsonLayout.LayoutIsFree` | runtime/vyb_type_metadata.c:396-446 | two renderings of one value read the same |
| `JsonText.SignedUndone` | runtime/vyb_type_metadata.c:265 | reading undoes the decimal printing of every 64-bit integer |
| `JsonBuffer.JsonBuf.constructor` | runtime/vyb_type_metadata.c:227-234 | a new buffer is empty |
| `JsonBuffer.JsonBuf.Reserve` | runtime/vyb_type_metadata.c:71-79 | the buffer at least doubles until the text fits, and keeps its contents |
| `JsonBuffer.JsonBuf.Push` | runtime/vyb_type_metadata.c:80-86 | text is appended and terminated |
| `JsonBuffer.JsonBuf.PushString` | runtime/vyb_type_metadata.c:89-117 | the escaping loop appends the literal |
| `JsonBuffer.JsonBuf.PushValue` | runtime/vyb_type_metadata.c:171-211 | the recursive printer appends the printed value |
| `JsonBuffer.JsonBuf.PushArray` | runtime/vyb_type_metadata.c:183-201 | the element loop appends the printed Vec |
| `JsonBuffer.JsonBuf.PushStruct` | runtime/vyb_type_metadata.c:213-223 | the field loop appends the printed struct |
| `JsonBuffer.JsonBuf.PushVariant` | runtime/vyb_type_metadata.c:142-167 | the variant is appended under its name, payload as null, value or array |
| `JsonReader.Cursor.SkipSpace` | runtime/vyb_type_metadata.c:262-264 | the cursor moves past white space |
| `JsonReader.Cursor.ParseInt` | runtime/vyb_type_metadata.c:265 | strtoll: sign, digits, saturation, and no movement without a digit |
| `JsonReader.Cursor.ReadQuoted` | runtime/vyb_type_metadata.c:284-326 | the loop undoes escapes into a buffer and consumes the closing quote |
| `JsonReader.Cursor.FillValue` | runtime/vyb_type_metadata.c:396-446 | the recursive reader computes the specified value and cursor |
| `JsonReader.Cursor.FillArray` | runtime/vyb_type_metadata.c:416-437 | the array loop computes the specified elements and cursor |
| `JsonReader.Cursor.FillNamed` | runtime/vyb_type_metadata.c:373-394 | the object loop computes the specified slots and cursor |
| `JsonReader.Cursor.FillTagged` | runtime/vyb_type_metadata.c:333-371 | the enum reader computes the specified tag, payload and cursor |
| `JsonReader.Cursor.FillPositions` | runtime/vyb_type_metadata.c:356-365 | the payload loop fills positions until a comma is missing |
| `JsonDocument.ThereAndBack` | runtime/vyb_type_metadata.c:227-460 | the buffer's text, handed to the cursor, gives the value back when it has no NUL, no empty struct and no undeclared tag |
| `ModuleResolver.Resolver.constructor` | src/module_registry.cpp:1533-1536 | a new registry has no modules, an empty stack and an empty order |
| `ModuleResolver.Resolver.Resolve` | src/module_registry.cpp:1547-1583 | on any finite import graph the search ends, succeeds exactly when nothing the module needs is broken or cyclic, adds only needed modules to the order, and restores the stack |
| `ModuleResolver.Resolver.ResolveImports` | src/module_registry.cpp:1706-1720 | the import loop answers for the module from the answers for its imports, the exception path included |
| `ModuleResolver.Resolver.Chain` | src/module_registry.cpp:1562-1572 | the reported chain is the active stack from the module on, closed with it again |
| `ModuleResolver.ChainIsCycle` | src/module_registry.cpp:1561-1576 | that chain is a cycle of imports |
| `ModuleResolver.Resolver.Leave` | src/module_registry.cpp:2312-2316 | a failing module is marked failed and leaves the stack, and what is marked failed really is doomed |
| `ModuleResolver.Resolver.Complete` | src/module_registry.cpp:2309-2319 | a resolved module joins the order behind everything it imports |
| `ModuleResolver.OrderedIsSound` | src/module_registry.cpp:2310-2311 | an order with imports first holds everything its members reach, and nothing in it is broken or on a cycle |
| `ModuleResolver.FirstResolution` | src/module_registry.cpp:1538-1584 | a first resolution succeeds exactly when no needed module is broken or cyclic, and then the order is exactly the needed modules, each once, imports first |
| `ModuleResolver.CircularExactly` | src/module_registry.cpp:1561-1576 | a circular-import error names a cycle the root needs, a needed cycle always stops the resolution, and when every needed module parses the error is raised exactly when there is such a cycle |
| `ImportClosure.Closure` | src/module_registry.cpp:1767-1931 | the nested fixpoint loops end and compute the least triple of names, binds and types closed under references and bind self types |
| `ImportClosure.WalkDecls` | src/module_registry.cpp:1842-1856 | a pass over the declarations walks every name carried at its start and carries nothing unnecessary |
| `ImportClosure.WalkBinds` | src/module_registry.cpp:1857-1871 | a pass over the binds walks every bind carried at its start and carries nothing unnecessary |
| `ImportClosure.AdmitByMethod` | src/module_registry.cpp:1872-1899 | the method-directed loop ends and admits only necessary binds |
| `ImportClosure.AdmitByType` | src/module_registry.cpp:1900-1928 | the type-directed loop ends, admits only necessary binds and leaves none behind |
| `ImportClosure.NothingDangles` | src/module_registry.cpp:1730-1740 | nothing carried mentions a declaration of the module that is not carried |
| `ImportClosure.MethodsMakeNoDifference` | src/module_registry.cpp:1872-1928 | the closure does not depend on which methods a bind provides, so the method-directed loop is subsumed by the type-directed one |
| `ImportClosure.LeastIsUnique` | src/module_registry.cpp:1825-1835 | the least closed triple is unique, so the order of iteration makes no difference |
| `Precedence.ParseIsExact` | src/bindgen_libclang.cpp:147-231 | for any grammar with distinct levels, a token list parses to a tree if and only if the tree fits the grammar and prints as those tokens |
| `Precedence.PrintParses` | src/bindgen_libclang.cpp:170-231 | parsing the print of a fitting tree gives the tree and leaves what followed |
| `Precedence.ParsedFits` | src/bindgen_libclang.cpp:170-231 | what is parsed fits its level and prints back to what was consumed |
| `Precedence.SelectParses` | src/bindgen_libclang.cpp:573-575 | the `select` form printed around any three expressions parses to them |
| `Precedence.MinimalFits` | src/bindgen_libclang.cpp:147-231 | with parentheses only around operands that bind too loosely, every tree fits |
| `Precedence.MinimalIsTight` | src/bindgen_libclang.cpp:147-231 | none of those parentheses can be left out |
| `MacroExpr.EvaluatesMinimal` | src/bindgen_libclang.cpp:147-231 | every expression printed with the minimal parentheses of section 6.5 of ISO C evaluates, over all its tokens, to its own value |
| `MacroExpr.SpareParentheses` | src/bindgen_libclang.cpp:147-231 | any accepted expression, printed again with the fewest parentheses, evaluates to the same value |
| `MacroExpr.EvaluateIsExact` | src/bindgen_libclang.cpp:153-157 | a value comes out if and only if some tree of the grammar has exactly these tokens and that value |
| `MacroExpr.MacroLevels` | src/bindgen_libclang.cpp:578-607 | the translator has every binary operator of section 6.5 of ISO C, each at its precedence, and no other |
| `MacroDerivation.EvaluateIsDerivation` | src/bindgen_libclang.cpp:147-231 | a value comes out if and only if the productions of section 6.5 of ISO C, each with its operator's rule, derive it from all the tokens |
| `MacroDerivation.TwoOperands` | src/bindgen_libclang.cpp:191-230 | between two literals each binary operator is applied to the left and the right one in that order, and only a zero divisor gives no value |
| `MacroDerivation.LeftToRight` | src/bindgen_libclang.cpp:191-230 | two operators of one level are taken from the left |
| `MacroDerivation.PrefixOperator` | src/bindgen_libclang.cpp:184-189 | a prefix operator is applied to its operand, and plus changes nothing |
| `MacroDerivation.ParsedDerives` | src/bindgen_libclang.cpp:170-231 | what a level of the parser consumes derives the value of the tree it builds |
| `MacroExpr.ParsersAgree` | src/bindgen_libclang.cpp:540-656 | on the integer operators the translator builds the evaluator's tree |
| `MacroParsers.IntEval.constructor` | src/bindgen_libclang.cpp:149-151 | the evaluator starts at the first token |
| `MacroParsers.IntEval.Run` | src/bindgen_libclang.cpp:153-157 | the class evaluates as specified |
| `MacroParsers.IntEval.Bor` | src/bindgen_libclang.cpp:191-195 | the loop of this level gives the value of its tree, which its tokens derive, or fails when there is none |
| `MacroParsers.IntEval.Bxor` | src/bindgen_libclang.cpp:196-200 | likewise for exclusive or |
| `MacroParsers.IntEval.Band` | src/bindgen_libclang.cpp:201-205 | likewise for and |
| `MacroParsers.IntEval.Shift` | src/bindgen_libclang.cpp:206-213 | likewise for the shifts |
| `MacroParsers.IntEval.Add` | src/bindgen_libclang.cpp:214-221 | likewise for plus and minus |
| `MacroParsers.IntEval.Mul` | src/bindgen_libclang.cpp:222-230 | likewise for times, divide and remainder, a zero divisor failing |
| `MacroParsers.IntEval.Unary` | src/bindgen_libclang.cpp:184-189 | prefix operators nest to the right |
| `MacroParsers.IntEval.Primary` | src/bindgen_libclang.cpp:170-182 | a parenthesised expression, a literal or a bound name |
| `MacroTranslate.OutputKeepsMeaning` | src/bindgen_libclang.cpp:540-656 | the output, read back with any precedence table that has its operators and reads `select`, is one expression with the macro body's value, conditionals included and constants inlined |
| `MacroTranslate.OutputAgreesWithEvaluator` | src/bindgen_libclang.cpp:540-656 | on a body the evaluator accepts, the output denotes what the evaluator computes |
| `MacroTranslate.OutputIsFull` | src/bindgen_libclang.cpp:557-576 | the output is the print of the fully parenthesised tree with conditionals as `select` |
| `MacroTranslate.TypeIsSound` | src/bindgen_libclang.cpp:551-620 | when the branches of every conditional agree in type, the computed type is the type of the body's value |
| `MacroTranslate.IntegersAreUniform` | src/bindgen_libclang.cpp:147-231 | every body the integer evaluator accepts meets that condition |
| `MacroTranslate.FirstBranchDecides` | src/bindgen_libclang.cpp:573-575 | a conditional with an Int and a Float branch has type Int even when its value is the Float |
| `MacroTranslate.MacroExprParser.constructor` | src/bindgen_libclang.cpp:516-519 | the translator starts at the first token |
| `MacroTranslate.MacroExprParser.Run` | src/bindgen_libclang.cpp:522-527 | the class translates as specified |
| `MacroTranslate.MacroExprParser.Ternary` | src/bindgen_libclang.cpp:563-576 | a conditional is translated from its three parts, nesting to the right, to what `OutputKeepsMeaning` reads back |
| `MacroTranslate.MacroExprParser.Level` | src/bindgen_libclang.cpp:540-561 | the generic binary loop translates a left-associative chain of its level |
| `MacroTranslate.MacroExprParser.Unary` | src/bindgen_libclang.cpp:609-621 | a prefix operator is translated with its operand in parentheses |
| `MacroTranslate.MacroExprParser.Primary` | src/bindgen_libclang.cpp:623-650 | source parentheses are dropped, constants become their values, unknown names fail |
| `Utf8.DecodeIsExact` | runtime/vyb_runtime.c:2143-2166 | a position decodes exactly when a character of section 4 of RFC 3629 starts there, to that character's value and length |
| `Utf8.DecodeUndoesEncode` | runtime/vyb_runtime.c:2143-2166 | decoding undoes the encoding of every scalar value, wherever it stands |
| `Utf8.EncodeUndoesDecode` | runtime/vyb_runtime.c:2143-2166 | what is decoded is a scalar value whose encoding is what was there |
| `Utf8.CharIsEncoding` | runtime/vyb_runtime.c:2160-2163 | the syntax of section 4 has only encodings of scalar values |
| `Utf8.EncodingIsChar` | runtime/vyb_runtime.c:2160-2163 | every encoding has that syntax |
| `Utf8.ValidIsExact` | runtime/vyb_runtime.c:2197-2204 | a text is valid exactly when it is a concatenation of encodings |
| `Utf8.EncodingOffsets` | runtime/vyb_runtime.c:2169-2189 | a concatenation of encodings has one offset per scalar value, each where its encoding starts |
| `Utf8.OffsetsAscend` | runtime/vyb_runtime.c:2177-2189 | the offsets lie in the text and strictly ascend |
| `Utf8.DecodeAt` | runtime/vyb_runtime.c:2143-2166 | the decoder with its cursor, -1 and no movement on anything invalid |
| `Utf8.Length` | runtime/vyb_runtime.c:2169-2173 | the number of characters up to the first invalid byte |
| `Utf8.Index` | runtime/vyb_runtime.c:2177-2187 | an index is defined exactly below the length, and is that character's offset |
| `Utf8.Validate` | runtime/vyb_runtime.c:2197-2204 | the loop accepts exactly the texts that decode to the end |
| `StringChannel.Channel.constructor` | runtime/vyb_runtime.c:3935-3946 | a new channel is empty and open, bounded exactly for a positive capacity |
| `StringChannel.Channel.Grow` | runtime/vyb_runtime.c:3948-3957 | growth doubles the ring, moves the queue to its front and keeps it |
| `StringChannel.Channel.Send` | runtime/vyb_runtime.c:3961-3982 | a send appends to the queue unless the channel is closed, bounded and full, or has to grow and cannot, and is a step of the account of references |
| `StringChannel.Channel.Take` | runtime/vyb_runtime.c:3985-4011 | a receive takes the oldest slot, through wrap-around, and is a step of the account of references |
| `StringChannel.Channel.Close` | runtime/vyb_runtime.c:4093-4101 | closing keeps the queue |
| `StringChannel.Channel.Drain` | runtime/vyb_runtime.c:4105-4111 | freeing visits exactly the queued pointers, oldest first |
| `StringChannel.RingPut` | runtime/vyb_runtime.c:3977-3978 | a write behind the last slot of the ring appends to the queue |
| `StringChannel.RingTake` | runtime/vyb_runtime.c:3992-3994 | stepping the head drops the oldest element of the queue |
| `ChannelRefs.ReferencesAreConserved` | runtime/vyb_runtime.c:3961-4116 | over every run, each buffer's count is its holders plus sends under way plus its places in queues, and it is registered exactly while any of these exists |
| `ChannelRefs.StepConserves` | runtime/vyb_runtime.c:3961-4116 | every step of allocation, copy, drop, send, refusal, receive, close and free keeps the count equal to the references |
| `ChannelRefs.ReceivedIsAlive` | runtime/vyb_runtime.c:3985-4011 | a received buffer is alive and its reference moves to the receiver without touching the count |
| `ChannelRefs.RefusalLeavesNoTrace` | runtime/vyb_runtime.c:3966-3976 | retain, refusal and release leave the state as it was |
| `ChannelRefs.NothingLeaks` | runtime/vyb_runtime.c:4103-4116 | once channels are drained and no send is under way, counts equal the holders' references |
| `ChannelRefs.FirstInFirstOut` | runtime/vyb_runtime.c:3961-4011 | over every run what was queued and what was accepted is what was taken out, in that order, followed by what is queued |
| `ChannelRefs.CloseIsFinal` | runtime/vyb_runtime.c:4093-4101 | after a close no send is ever accepted again, and what is queued can still be received |
| `ChannelRefs.FreeIsFinal` | runtime/vyb_runtime.c:4105-4116 | after a free nothing is sent or received any more, and the queue is only released |
| `ChannelRefs.CapacityIsKept` | runtime/vyb_runtime.c:3966-3970 | a bounded channel never holds more than its capacity |
| `ThreadSlots.BodiesDoNotShare` | runtime/vyb_runtime.c:3013-3062 | in every reachable state two bodies inside their trampolines have different slots |
| `ThreadSlots.JoinedIsNotReissued` | runtime/vyb_runtime.c:3066-3094 | a slot a joiner holds is not issued again, and the joiner waits for the thread it found there |
| `ThreadSlots.JoinsGetTheirOwn` | runtime/vyb_runtime.c:3066-3094 | a finished join has the result of the thread it named, and no two joins get the same thread's |
| `ThreadSlots.ReturnedIsJoined` | runtime/vyb_runtime.c:3013-3094 | the value a closure returned is what every later join of its thread returns |
| `ThreadSlots.SpawnedIsJoinable` | runtime/vyb_runtime.c:3031-3084 | a new thread can be joined at any time, finished or not, until someone joins or detaches it |
| `ThreadSlots.DetachedIsReclaimed` | runtime/vyb_runtime.c:3018-3156 | a detached thread is not joined afterwards, and once it has finished its slot is free unless an earlier join holds it |
| `ThreadSlots.FinishedDetachedIsFree` | runtime/vyb_runtime.c:3136-3156 | the slot of a finished detached thread is free unless a joiner holds it |
| `ThreadSlots.StepKeeps` | runtime/vyb_runtime.c:3013-3156 | every spawn, failed creation, return, finish, join and detach keeps the slot invariant |
| `ThreadSlots.ThreadTable.SpawnSlot` | runtime/vyb_runtime.c:3031-3062 | the first free slot is issued, and a failed creation gives it back |
| `ThreadSlots.ThreadTable.FinishBody` | runtime/vyb_runtime.c:3018-3026 | a body's end marks the slot done and frees a detached one no joiner holds |
| `ThreadSlots.ThreadTable.BeginJoin` | runtime/vyb_runtime.c:3066-3084 | a join is refused unless the slot is used, not detached and not being joined |
| `ThreadSlots.ThreadTable.EndJoin` | runtime/vyb_runtime.c:3088-3092 | the second critical section takes the result and gives the slot back |
| `ThreadSlots.ThreadTable.DetachHandle` | runtime/vyb_runtime.c:3136-3156 | -2, -1 or 0, and the slot detached, or freed when its body is done and no joiner holds it |
| `Agents.HandlesAreSound` | runtime/vyb_runtime.c:3690-3750 | over every run of spawns, failed spawns and frees within the generations, returned handles are positive and pairwise distinct, a live one names its own slot and can be freed, a freed one neither |
| `Agents.SpawnTakesFirstFree` | runtime/vyb_runtime.c:3690-3702 | a new agent gets the first slot that is not in use, if there is one |
| `Agents.ResolvesExactly` | runtime/vyb_runtime.c:3742-3750 | a returned handle resolves to its slot exactly until it is freed, slot reuse included |
| `Agents.StepKeeps` | runtime/vyb_runtime.c:3690-3852 | every spawn, failed spawn and free keeps the tag, generation and issue invariant |
| `Agents.HandleParts` | runtime/vyb_runtime.c:3722 | for every generation a handle is not 0, is positive exactly when the generation modulo 2^44 is below 2^43, and then splits into the slot and that remainder |
| `Agents.GenerationLimit` | runtime/vyb_runtime.c:3733-3750 | the handle of a slot's present occupancy resolves to the slot if and only if the generation modulo 2^63 is below 2^43, and otherwise to nothing |
| `Agents.HandlesCollideExactly` | runtime/vyb_runtime.c:3722 | two occupancies have the same handle if and only if they are of one slot and their generations agree modulo 2^44 |
| `Agents.StaleExactly` | runtime/vyb_runtime.c:3711-3720 | over every run a free slot has a used tag if and only if the last step that touched it is a failed creation |
| `Agents.AgentTable.SpawnAgent` | runtime/vyb_runtime.c:3690-3723 | the first free slot gets the next generation, and 0 is returned exactly when the table is full or the thread could not be created |
| `Agents.AgentTable.FreeAgent` | runtime/vyb_runtime.c:3832-3852 | freeing succeeds exactly for a handle that resolves, and vacates its slot |

## Left out

- Weak memory: all models are sequentially consistent. The registry's guard uses acquire and release orderings on separate variables.
- Executor: failure to create a fiber's context or a worker, clock overflow in wake times, overflow of the spawn counter, the error slot of failable tasks, `poll` and process-exit shutdown.
- Executor: one thread outside the pool awaits at a time, and a handle is not used after it is detached. Runs end at a cleanup that frees what is in use.
- `Executor.Scheduler` holds lists as sequences where the source links records through pointers.
- Registry: reference counts are unbounded integers, and the interleaved model has no fatal exit.
- Registry.StringRegistry.RegisterRefs: is for a pointer that is not registered, as its callers pass buffers they just allocated; `ReRegistering` says exactly when that matters.
- Registry.StringRegistry.SlotFor: likewise.
- GuardRuns.InvStep: has no registration with count 0, which the registry class does model.
- GuardRuns.NothingIsLost: likewise.
- Exchange: socket errors, end of stream, spinning and polling, the argument check, and allocation failure.
- JSON: Float, which is printed with six significant digits; allocation failure; the limit of 256 registered types; type names as text, which are trees here.
- JsonReader.Cursor.FillTagged: writes an enum slot as a whole, where the source writes payload fields over the bytes of the slot's old value.
- JsonDocument.ThereAndBack: gives a sufficient condition for the value alone. An empty struct in last position does no harm to it, and a misread inner object can make an outer loop read a field again, so the value alone has no exact condition here; value and unread suffix together have one (`RoundTrip`).
- Module resolver: file lookup, preprocessing, visibility, splicing and renaming; only the search, its states and its order are modelled.
- Import closure: the collector of free identifiers is a map from declarations to names, and namespace imports, which skip the closure, are not modelled.
- Macro bodies: the lexical classes of literals and identifiers are parameters.
- MacroTranslate.TypeIsSound: gives a sufficient condition; a conditional whose branches differ does no harm under a comparison.
- String channels: blocking and wake-up; a receive is a step that is enabled when something is queued. Int channels are the same ring without references.
- Thread slots: closures' capture environments, and whether the operating system reclaims detached threads.
- Agents: two concurrent frees of one handle, mailboxes and failure channels.
- Sockets beyond the exchange, TLS, terminal, files, processes, regular expressions, hashing and encodings, the language server, the formatter, the linter, documentation and binding generation beyond macro bodies, and the Qt bridge.
