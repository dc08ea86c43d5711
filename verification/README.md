# A verified model of the kernel, its objects and its library

The repository is a FreeRTOS V11.1.0 kernel, configured for one core, with a small C library.
This project models its state and its algorithms in Dafny and proves what they are for.  Each
file is a component; run `dafny verify dfyconfig.toml` to check all of it.

The configuration is that of `rtos/config/FreeRTOSConfig.h`: one core, preemption with time
slicing, generic task selection, no tickless idle, 32-bit ticks, 20 priorities, mutexes, task
suspension and aborted delays.  The tick modulus and the number of priorities are constants in
`Config.dfy`.

Code that works by changing state in place is a class with the same fields, whose methods are
proved against functions on a value with those fields.  What the code promises is proved about
these functions and about all runs built from them.

| file | what it models | what is proved |
|---|---|---|
| `Lists.dfy` | the intrusive doubly linked list, pointer by pointer | it is a sequence with a walk index; insertion is sorted and stable |
| `KernelState.dfy` | the scheduler's variables: two delay lists modulo 2^32, cached unblock time, pended ticks, ready lists | every operation keeps the invariant and has a simple effect on absolute deadlines |
| `KernelMeaning.dfy` | a simple machine over absolute time | properties of all its runs |
| `KernelRefinement.dfy`, `Kernel.dfy` | the scheduler as a class whose methods change those variables in place | each method is one step of the machine |
| `KernelRuns.dfy` | any sequence of kernel calls and tick interrupts | tasks wake exactly on time, no tick is lost, the highest-priority ready task runs |
| `KernelPreemption.dfy` | when calls and interrupts ask for a context switch | exactly when; in every run no ready task outranks the running one unless a switch has been asked for |
| `KernelSharing.dfy` | which of several ready tasks of one priority runs | they take turns, in every run, and none is starved |
| `TimeOuts.dfy` | time-out states and periodic delays | when modular tests agree with unbounded time |
| `BlockingCalls.dfy` | calls that check a time-out, block, and try again, on the scheduler | they give up at the deadline they began with, not before and not after |
| `KernelEvents.dfy`, `QueueCalls.dfy` | the steps of a queue on the scheduler, with anything else going on | a waiting task is ready when a unit is there for it, and at its deadline |
| `QueueStorage.dfy` | the ring of slots of a queue | it is a bounded deque |
| `QueueLocks.dfy` | tasks, interrupts and time-outs around a locked queue | no wakeup is lost, in any interleaving, and exactly which suspensions and resets lose one |
| `Mutexes.dfy` | priority inheritance, recursive mutexes, nested waits, time-outs | accounting in every run; holders outrank their waiters in disciplined runs, and exactly which steps break that |
| `MutexFailures.dfy` | runs with one such step | they end with a holder below a waiter |
| `MutexHolding.dfy` | who holds a mutex and at what priority, told from the steps of a run | nested takes and gives are counted; each step's effect on priorities is exact |
| `Timers.dfy` | the timer task, its two lists, its commands, how long it blocks | classification and callbacks are exact in absolute time |
| `TimerHistory.dfy` | what the commands of a run make of a timer | callbacks are exact from the time of the last command |
| `EventGroups.dfy`, `EventGroupBarrier.dfy` | set, clear, wait, sync | who is released; sync is a reusable barrier |
| `Rings.dfy`, `StreamBuffers.dfy`, `StreamTransfers.dfy` | stream and message buffers, one byte at a time | whole messages, in order, under any interleaving of writer and reader; what there is room for goes through |
| `MemPool.dfy` | the segregated-size allocator, on the bytes of its pool | live blocks never overlap; no byte is lost |
| `DList.dfy` | the library's doubly linked list, pointer by pointer | it is a sequence |
| `HashMap.dfy` | the hash map with chained nodes and a free queue | it is a finite map of bounded capacity |
| `Cobs.dfy`, `Crc32.dfy`, `Md5.dfy`, `CQueue.dfy` | the library algorithms | round trip, reference definitions, streaming, wrap-around |

## What the model means

**Absolute time.** The kernel knows a tick value modulo 2^32.  The model adds nothing to that
state: absolute time is read off it, as overflow count times 2^32 plus tick count, and a wake time
in the current or the overflow list stands for an absolute deadline in this epoch or the next.
`KernelState.StatusOf` is that reading.  `KernelMeaning` is the simple machine (each task has a
status, deadlines are unbounded); `KernelRuns` proves that any run of the kernel's operations is a
run of that machine.

**Steps.** Where interleaving matters a step is one critical section of a task, one interrupt, one
time-out, or, in stream buffers, the copying of one byte.  `Enabled` says when a step can happen,
`Possible` that each step of a run can, `Run` what the run does.

**Context switches.** A call that asks for a switch does not make it: `SwitchOp` is a step of its own, which
the port makes as soon as it can.  `KernelPreemption.Asks` says which operations ask, by a yield or by
the answer they give to a caller that then yields.

**Timers** carry a log that no code reads: the time they were started and the number of callbacks.
It is there to say what exact means.

## Findings

- A holder of a mutex can run below a task that waits for it (rtos/source/queue.c:999-1063,
  1689-1735, rtos/source/tasks.c:6580-6890).  `Mutexes.HolderOutranksWaiters` excludes the steps with
  which that comes about, each by an exact condition, and for each there is a run from the start:
  - a give that undercuts.  `xQueueGenericSend` ignores the request to yield that comes from giving
    back the last mutex when a task waits for that mutex and is not itself of higher priority.  The
    running task may then go on below another ready task and take a mutex over the heads of its
    waiters (`Mutexes.GiveRunsHighest`, `MutexFailures.UndercutBreaksInheritance`);
  - a take that jumps the queue.  A task that has suspended the scheduler runs on after a give has
    woken a higher one, and can take the mutex again (`Mutexes.TakeHoldersAbove`,
    `MutexFailures.JumpBreaksInheritance`);
  - a suspension or deletion of the task that was woken to take the mutex.  The others that wait are
    not woken in its place, and whoever takes the mutex next is not raised for them
    (`Mutexes.RemovedWokenAbove`, `MutexFailures.RobberyBreaksInheritance`);
  - a priority set by hand.  `vTaskPrioritySet` neither raises the holder for a waiter that it raises,
    nor moves the waiter in its event list, nor keeps a holder above its waiters (rtos/source/tasks.c:2880-2905;
    `Mutexes.SetPriorityExact`, `MutexFailures.SettingBreaksInheritance`);
  - a wait for a task that waits itself.  That a task waits while it holds a mutex breaks nothing; but
    when it is waited for in turn, the priority that it inherits is not lent on to the task that it waits
    for (`Mutexes.WaitHoldersAbove`, `MutexFailures.NestedWaitBreaksInheritance`), and it is not moved in
    the event list that it waits in (`Mutexes.WaitExact`, `MutexFailures.OvertakingBreaksInheritance`);
  - a wait of a task that has set its base priority while it runs at an inherited one.  Its event list
    item then shows the base, and it is queued behind lower tasks (rtos/source/tasks.c:2895-2898;
    `Mutexes.WaitExact`, `MutexFailures.MisfilingBreaksInheritance`);
  - the step after a time-out, if the first waiter has such an item: the holder falls to what it shows
    (`Mutexes.AfterTimeoutExact`, `MutexFailures.FallingBreaksInheritance`).
- The comment on `vListInsertEnd` says that a new item is the last one that the walk returns
  (rtos/source/list.c:118-120).  It is exactly if the walk index is at the end marker; otherwise the item
  at the index is.  So when the running task leaves its ready list, and with it the index goes back to the
  task that ran before it, tasks that become ready then run before that one
  (`Lists.InsertEndIsLast`, `Lists.NewcomerOvertakes`).  It is still chosen within two
  rounds (`KernelSharing.NoStarvation`).
- A wakeup on a queue can be lost in two ways, each with an exact condition and a run from a new queue:
  the woken task is suspended or deleted before it looks, and nobody is woken in its place
  (`QueueLocks.SuspendExact`, `QueueLocks.LostBySuspension`); and `xQueueGenericReset` wakes one sender
  however many slots it frees (rtos/source/queue.c:325-344; `QueueLocks.ResetExact`, `QueueLocks.LostByReset`).
- `xTaskCheckForTimeOut` misses a time-out exactly when a whole wrap of the tick count has passed,
  the count shows less than at entry, and what is left beyond whole wraps is short of the wait
  (`TimeOuts.CheckExact`, `TimeOuts.CheckMissesTimeOut`).  `xTaskDelayUntil` has a similar case
  (`TimeOuts.DelayUntilLate`, `TimeOuts.DelayUntilDelaysLate`), and so has a timer command that is
  processed a wrap or more after it was sent (`Timers.ClassifyLate`, `Timers.ClassifyFilesLate`).
- The timer task sees a wrap of the tick count only if it looks again less than a wrap after it looked
  last.  With only later timers left it blocks until the wrap, which leaves it less time to come to
  look than the tick it looked at before: after a look at tick 1 it must run in the very tick of the
  wrap (`Timers.LooksInTime`, `Timers.OneTickLate`).
- A block of no ticks when the tick count is portMAX_DELAY leaves a task in the list that is about to
  be switched (`KernelState.BlockedAhead`, `KernelRuns.ZeroWaitAtWrap`).  Of the callers in the kernel,
  those that check a time-out block for at least one tick (`BlockingCalls.Turned` needs no condition
  for it), and the timer task blocks for no ticks only at tick 0 (`Timers.BlocksUntilNext`).
- The block loop of `MD5Update` tests `i+64 <= inputlen` in 32 bits (src/common/md5.c:69).  It fails to
  stop exactly for inputs whose last whole block ends within 64 bytes of 2^32 (`Md5.LoopStopsExact`,
  `Md5.LoopOverruns`).
- `mp_create` compares the size of the buffer with that of the zone table before it aligns the start
  (src/common/tbox_mp.c:137-157): a buffer that is not aligned and only just larger than the table is
  accepted, and the table is written past its end (`MemPool.TableFitsExactly`, `MemPool.TableOverruns`).
- The counts of stream buffers wrap in 32 bits for buffers above half the range of a size_t
  (`StreamBuffers.CountsExact`, `StreamBuffers.LargeBufferMiscounts`).
- The table of chunk sizes in src/common/tbox_mp.c:54-61 has 770, 834, 898 and 962 where multiples of
  64 would fit; a zone's real chunk size is that of its own rounded request, and the zones still
  increase (`MemPool.ZonesIncrease`).

## Model

| member | source | states |
|---|---|---|
| `Lists.InsertKeepsSorted` | rtos/source/list.c:159-184 | The place where `vListInsert` stops keeps the list sorted and puts a value behind all equal ones. |
| `Lists.InsertPosUnique` | rtos/source/list.c:159-184 | That place is the only one with no larger value before it and a larger value, or the end, at it. |
| `Lists.InsertEndIsLastInWalk` | rtos/source/list.c:105-136 | After `vListInsertEnd` the walk from `pxIndex` returns every item already there, in the order as before, ahead of the new one; the one item that may follow it is the item `pxIndex` is at. |
| `Lists.InsertEndIsLast` | rtos/source/list.c:105-136 | The new item is the last one the walk returns, as the comment there says, iff the walk index is at the end marker. |
| `Lists.NewcomerOvertakes` | rtos/source/list.c:215-245 | When the item at the index is removed, items added then are returned before the one that was before it, although that was there first. |
| `Lists.RemoveFromWalk` | rtos/source/list.c:215-245 | Removal takes that item, and no other, out of the walk order. |
| `Lists.RoundRobin` | rtos/source/tasks.c:184-192 | Equal shares: the n-th step of the walk returns the n-th item in walk order, and one step per item brings the walk back to where it began. |
| `Lists.NextIsFirstInWalk` | rtos/source/tasks.c:184-190 | One step of the walk returns its first item and puts it last. |
| `Lists.KernelList.constructor` | rtos/source/list.c:49-86 | A new list is a well-formed ring without items whose end marker points at itself. |
| `Lists.KernelList.InsertEnd` | rtos/source/list.c:105-136 | On the pointers: the ring has the item just before `pxIndex`, containers and count agree, and the list is well formed again. |
| `Lists.KernelList.Insert` | rtos/source/list.c:139-211 | On the pointers: the item is at the sorted place, also for the value portMAX_DELAY; the list is well formed again. |
| `Lists.KernelList.FindPlace` | rtos/source/list.c:159-184 | The iterator loop ends on every well-formed list, at the node behind which the value belongs; portMAX_DELAY goes to the back without a search. |
| `Lists.KernelList.Remove` | rtos/source/list.c:215-245 | On the pointers: exactly that item is gone, `pxIndex` is on the list, the container is cleared, and the count that is left is returned. |
| `KernelState.CurrentListEmptyAtWrap` | rtos/source/tasks.c:248-260 | When the tick count is about to wrap no task is in the current delay list, so the assertion in the list switch cannot fail. |
| `KernelState.AdvancedKeepsCore` | rtos/source/tasks.c:4692-4706 | Counting one tick on, with or without a list switch, keeps the invariant and moves absolute time on by one. |
| `KernelState.AdvancedStatus` | rtos/source/tasks.c:248-260 | Switching the lists at a wrap leaves every absolute deadline what it was. |
| `KernelState.DrainEffect` | rtos/source/tasks.c:4715-4804 | The loop makes ready exactly the tasks of the current list that are due, and leaves the place of every other task alone. |
| `KernelState.TickKeeps` | rtos/source/tasks.c:4670-4905 | One processed tick keeps the invariant and moves absolute time on by exactly one. |
| `KernelState.TickRefines` | rtos/source/tasks.c:4670-4905 | One processed tick makes a task ready iff its absolute deadline is not after the new time, and changes no other status. |
| `KernelState.ResetNextKeeps` | rtos/source/tasks.c:6456-6474 | The recomputed next unblock time again bounds every wake time in the current list. |
| `KernelState.ResetNextExact` | rtos/source/tasks.c:6456-6474 | It is the earliest of these wake times, or portMAX_DELAY if no task is in the list. |
| `KernelState.DrainPendingEffect` | rtos/source/tasks.c:3990-4021 | Emptying the pending ready list puts each of its tasks into the ready list of its priority, and changes no other task. |
| `KernelState.UnpendedStatus` | rtos/source/tasks.c:3990-4032 | Emptying the pending ready list changes no status: its tasks were ready before. |
| `KernelState.ReplayKeeps` | rtos/source/tasks.c:4043-4070 | Replaying n pended ticks keeps the invariant and moves absolute time on by exactly n. |
| `KernelState.ReplayRefines` | rtos/source/tasks.c:4043-4070 | Replaying n ticks one at a time wakes exactly the tasks with a deadline within those n ticks. |
| `KernelState.WakeTimeExact` | rtos/source/tasks.c:8456-8489 | The wrapped wake time, read in this epoch or the next as the comparison with the tick count says, is the absolute time of the block plus the wait. |
| `KernelState.BlockedStatus` | rtos/source/tasks.c:8415-8490 | After blocking, the running task is delayed until now + wait in absolute time, or waits for ever; every other status is unchanged. |
| `KernelState.BlockedAhead` | rtos/source/tasks.c:8415-8490 | Blocking keeps all wake times ahead of the tick count iff it is not a wait of no ticks at tick portMAX_DELAY. |
| `KernelState.MakeReadyStatus` | rtos/source/tasks.c:268-274 | Adding a task to its ready list makes it ready whatever it was, and changes no other status. |
| `KernelState.EventGivenKeeps` | rtos/source/tasks.c:5341-5392 | Removing a task from an event list keeps the invariant, in both states of the scheduler. |
| `KernelState.DelayAbortedKeeps` | rtos/source/tasks.c:4576-4665 | Aborting a delay keeps the invariant. |
| `KernelState.TaskSuspendedStatus` | rtos/source/tasks.c:3121-3165 | Suspending a task, whatever it was doing, makes it suspended and changes no other status. |
| `KernelState.TaskSuspendedKeeps` | rtos/source/tasks.c:3121-3165 | Suspending a task keeps the invariant; the next unblock time does not refer to it any more. |
| `KernelState.TaskResumedKeeps` | rtos/source/tasks.c:3353-3406 | Resuming a task keeps the invariant, and does nothing unless it is suspended. |
| `KernelState.TaskResumedFromISRKeeps` | rtos/source/tasks.c:3414-3506 | Resuming from an interrupt keeps the invariant, also while the scheduler is suspended. |
| `KernelState.CreatedKeeps` | rtos/source/tasks.c:2019-2081 | Adding a new task keeps the invariant. |
| `KernelState.TaskDeletedKeeps` | rtos/source/tasks.c:2191-2306 | Deleting a task, running or not, keeps the invariant. |
| `KernelState.ForgottenKeeps` | rtos/source/tasks.c:6043-6075 | Freeing a deleted task keeps the invariant. |
| `KernelState.PriorityChangedKeeps` | rtos/source/tasks.c:2865-2960 | Changing a priority keeps every ready task in the list of its priority. |
| `KernelState.TopReadyFinds` | rtos/source/tasks.c:178-184 | The search from uxTopReadyPriority downwards ends at a list that is not empty, not below the priority of any ready task. |
| `KernelState.SelectionIsMaximal` | rtos/source/tasks.c:167-193 | The list the search ends at is not empty, and no ready task has a higher priority. |
| `KernelState.SwitchedToHighest` | rtos/source/tasks.c:5056-5139 | A context switch runs a ready task that no ready task outranks. |
| `KernelState.SwitchedKeeps` | rtos/source/tasks.c:5056-5139 | A context switch keeps the invariant and changes no status. |
| `KernelState.LengthsAddUp` | rtos/source/tasks.c:2019-2081 | The lengths of all state lists add up to the number of tasks: each task is in exactly one. |
| `KernelMeaning.TicksConserved` | rtos/source/tasks.c:4904-4906 | No tick is lost: processed and pended ticks together grow by the number of tick interrupts, and none stays pended once the scheduler runs. |
| `KernelMeaning.WokenExactlyAtDeadline` | rtos/source/tasks.c:4715-4804 | On the machine over absolute time: a delayed task that no call touches is delayed exactly until its deadline is processed. |
| `KernelMeaning.BlockedForItsTicks` | rtos/source/tasks.c:3956-4098 | A task that blocks for d ticks while the scheduler is suspended is ready, once the scheduler runs, iff d tick interrupts have come, pended ones included. |
| `KernelRefinement.TickMeaning` | rtos/source/tasks.c:4670-4905 | A processed tick on the two modular lists is one tick of the machine over absolute time. |
| `KernelRefinement.WokenAboveStep` | rtos/source/tasks.c:4787-4794 | The flag kept in the wake-up loop says exactly whether a task that outranks the running task has been woken. |
| `KernelRefinement.ResumeMeaning` | rtos/source/tasks.c:3956-4098 | xTaskResumeAll processes all pended ticks, and only when the last suspension ends. |
| `KernelRefinement.BlockMeaning` | rtos/source/tasks.c:8415-8490 | Blocking is the step to an absolute deadline, or to waiting for ever. |
| `KernelRefinement.BlockKeeps` | rtos/source/tasks.c:8415-8490 | Blocking always leaves the lists in order, and keeps the whole invariant iff it is not a wait of no ticks at tick portMAX_DELAY. |
| `KernelRefinement.EventGivenMeaning` | rtos/source/tasks.c:5341-5392 | An event makes the task ready whether the scheduler is suspended or not. |
| `KernelRefinement.TaskSuspendedMeaning` | rtos/source/tasks.c:3121-3165 | Suspension is one step of the machine. |
| `KernelRefinement.CreatedMeaning` | rtos/source/tasks.c:2019-2081 | Creation is one step of the machine. |
| `KernelRefinement.TaskDeletedMeaning` | rtos/source/tasks.c:2191-2306 | Deletion is one step: the running task is kept as deleted, any other is gone. |
| `KernelRefinement.PriorityChangedMeaning` | rtos/source/tasks.c:2865-2960 | Changing a priority changes no status. |
| `KernelRefinement.SwitchedMeaning` | rtos/source/tasks.c:5056-5139 | A context switch changes no status and no priority. |
| `Kernel.Scheduler.AddToReadyList` | rtos/source/tasks.c:268-274 | The statements of the macro: top ready priority, ready list, containers. |
| `Kernel.Scheduler.ResetNextTaskUnblockTime` | rtos/source/tasks.c:6456-6474 | The cached time becomes the head of the current delay list, or portMAX_DELAY. |
| `Kernel.Scheduler.SwitchDelayedLists` | rtos/source/tasks.c:248-260 | The lists change roles, the overflow count goes up, the cached time is reset. |
| `Kernel.Scheduler.IncrementTick` | rtos/source/tasks.c:4670-4905 | One tick interrupt of the machine, processed or pended; asks for a switch iff the scheduler runs and a yield was pending, or a task above the running one came into a ready list, or the ready list of the running priority has two tasks. |
| `Kernel.Scheduler.ProcessTick` | rtos/source/tasks.c:4686-4903 | The tick proper, with its result. |
| `Kernel.Scheduler.WakeDueTasks` | rtos/source/tasks.c:4715-4804 | The wake-up loop ends, wakes exactly the due tasks, and notes whether one outranks the running task. |
| `Kernel.Scheduler.SuspendAll` | rtos/source/tasks.c:3811-3833 | One suspension more; nothing else changes. |
| `Kernel.Scheduler.ResumeAll` | rtos/source/tasks.c:3956-4103 | One step of the machine; once the scheduler runs again it yields iff a yield was pending, or a task above the running one came into a ready list, from the pending ready list or by a replayed tick, or ticks were replayed and the ready list of the running priority has two tasks. |
| `Kernel.Scheduler.MovePendingReady` | rtos/source/tasks.c:3990-4032 | The loop over the pending ready list; a yield pends after it iff one did before or the loop brought a task above the running one into a ready list. |
| `Kernel.Scheduler.ReplayTicks` | rtos/source/tasks.c:4043-4070 | The loop over the pended ticks; a yield pends after it iff one did before, or some tick brought a task above the running one into a ready list, or there was a tick and the running priority is shared. |
| `Kernel.Scheduler.BlockCurrent` | rtos/source/tasks.c:8415-8490 | The running task is delayed to an absolute deadline or waits for ever, as one step of the machine; the invariant is kept iff it is not a wait of no ticks at tick portMAX_DELAY. |
| `Kernel.Scheduler.DelayCurrent` | rtos/source/tasks.c:8456-8489 | The wake time goes to the current or the overflow list, and the cached time is lowered if need be. |
| `Kernel.Scheduler.RemoveFromEventList` | rtos/source/tasks.c:5341-5392 | The task becomes ready, at once or, while the scheduler is suspended, behind those held already; the result says whether it outranks the running task, and a yield pends iff it does or one did. |
| `Kernel.Scheduler.GetStateIsBlocked` | rtos/source/tasks.c:2485-2609 | Whether eTaskGetState says blocked: a delay, or waiting for an event, and not on the pending ready list. |
| `Kernel.Scheduler.AbortDelay` | rtos/source/tasks.c:4576-4665 | Succeeds iff the task is blocked, and then makes it ready, inside its own suspension of the scheduler; a yield pends afterwards iff one did or the task it woke outranks the running one. |
| `Kernel.Scheduler.SuspendTask` | rtos/source/tasks.c:3121-3165 | The task is suspended whatever it was doing; the invariant is kept. |
| `Kernel.Scheduler.ResumeTask` | rtos/source/tasks.c:3353-3406 | A suspended task becomes ready; anything else is left alone. |
| `Kernel.Scheduler.ResumeFromISR` | rtos/source/tasks.c:3414-3506 | The same from an interrupt, whether the scheduler is suspended or not; the result says whether to yield, and a yield pends iff it does or one did. |
| `Kernel.Scheduler.CreateTask` | rtos/source/tasks.c:2019-2081 | The task is ready at its priority. |
| `Kernel.Scheduler.DeleteTask` | rtos/source/tasks.c:2191-2306 | The running task is left for the idle task; any other is gone from every list. |
| `Kernel.Scheduler.CheckTasksWaitingTermination` | rtos/source/tasks.c:6043-6075 | The loop ends, frees exactly the tasks of the termination list, and changes no other status. |
| `Kernel.Scheduler.ChangePriority` | rtos/source/tasks.c:2865-2960 | The priority changes, a ready task changes list, no status changes. |
| `Kernel.Scheduler.SwitchContext` | rtos/source/tasks.c:5056-5139 | Runs a ready task of highest priority, and of several the first in the walk of their ready list, which is then last in that walk; no other list changes. While the scheduler is suspended it only notes that a switch is wanted. |
| `Kernel.Scheduler.FindTopPriority` | rtos/source/tasks.c:178-184 | The search loop ends, at the highest priority with a ready task. |
| `KernelPreemption.TickAsks` | rtos/source/tasks.c:4787-4838 | What a processed tick answers, in words of the ready lists before and after it alone. |
| `KernelPreemption.SharedByTwo` | rtos/source/tasks.c:4810-4820 | The ready list of the running priority is longer than one iff two ready tasks have that priority. |
| `KernelPreemption.PendingAsks` | rtos/source/tasks.c:3990-4021 | Emptying the pending ready list leaves a yield pending iff one was, or a task on that list outranks the running one. |
| `KernelPreemption.ReplayAsks` | rtos/source/tasks.c:4043-4070 | Over any number of replayed ticks nobody leaves a ready list, and a yield is pending afterwards iff one was, or some task came above the running one, or the running priority is shared. |
| `KernelPreemption.ResumeAsks` | rtos/source/tasks.c:3956-4103 | The same of xTaskResumeAll as a whole. |
| `KernelPreemption.AbortedInside` | rtos/source/tasks.c:4576-4665 | The same of xTaskAbortDelay, with the suspension it makes itself and whatever suspension it is called in. |
| `KernelPreemption.StepAnswers` | rtos/source/tasks.c:4670-4905 | Each of fifteen operations either asks for a context switch, or brings no ready task above the running one, or leaves a yield pending for the end of the suspension; a switch leaves nobody above. |
| `KernelPreemption.PreemptionHolds` | rtos/source/tasks.c:3956-4103 | So does any run: in every reachable state a switch has been asked for since the last one was made, or no ready task outranks the running one, or the scheduler is suspended with a yield pending. |
| `KernelPreemption.HighestRuns` | rtos/source/tasks.c:2019-2081 | Preemption: from any start, after any run, while the scheduler is not suspended and no context switch has been asked for, the running task is ready and no ready task outranks it. |
| `KernelPreemption.OnlySwitchesSwitch` | rtos/source/tasks.c:5056-5139 | No operation but a context switch changes which task runs, and none but a change of priority the priority of a task. |
| `KernelSharing.SwitchedTakesTurn` | rtos/source/tasks.c:184-192 | A context switch runs the first task in the walk of one ready list, puts it last, and changes no other list and nothing else of any task. |
| `KernelSharing.MakeReadyJoinsLast` | rtos/source/tasks.c:268-274 | A task made ready is to run after all ready tasks of its priority, but for the one the walk index is at; no other ready list changes but that it leaves. |
| `KernelSharing.EqualShares` | rtos/source/tasks.c:184-192 | Equal shares over runs: while the ready tasks of the highest priority stay the same n tasks, whatever else happens, the first n context switches run each of them once, in the order of the walk, and each later switch the task that ran n switches before. |
| `KernelSharing.JoinedAsNear` | rtos/source/list.c:105-136 | A task that joins a ready list leaves every other as near to its turn: as far from the walk index if the index comes to it before the end of the list, and otherwise with the index as far from the end. |
| `KernelSharing.LeftAsNear` | rtos/source/list.c:215-245 | So does a task that leaves it, even the one the index is at. |
| `KernelSharing.OpKeepsTurn` | rtos/source/tasks.c:4670-4905 | No operation but a context switch, or one on the task itself, puts off its turn. |
| `KernelSharing.NoStarvation` | rtos/source/tasks.c:184-192 | No starvation: over any run that leaves a ready task in its ready list of at most n tasks, others coming and going as they like, it is among the tasks chosen once 2 n context switches have chosen from that list. |
| `KernelRuns.StartedIsLegal` | rtos/source/tasks.c:2019-2081 | The scheduler started after any tasks have been made, in any order and with any priorities, the idle task among them: the invariant holds, every task is ready, and the first to run is one of highest priority. |
| `KernelRuns.PerformKeeps` | rtos/source/tasks.c:4670-4905 | Each of fifteen kernel operations keeps the invariant and the idle task ready, and is its step of the machine over absolute time. |
| `KernelRuns.UnorderedEventPerformed` | rtos/source/tasks.c:5434-5503 | Removing a task from the list of an event group, with the scheduler suspended, keeps the invariant and is the one step that makes the task ready. |
| `KernelRuns.RunRefines` | rtos/source/tasks.c:3956-4098 | Any run of kernel calls and interrupts keeps the invariant and has, for all tasks at once, the effect of the machine over absolute time. |
| `KernelRuns.EveryTickCounted` | rtos/source/tasks.c:4904-4906 | In every reachable state: ticks processed plus ticks pended are all ticks that came, none is pended while the scheduler runs, the list lengths add up to the number of tasks, and the current list is empty when the tick count is about to wrap. |
| `KernelRuns.WokenAtDeadline` | rtos/source/tasks.c:4715-4804 | Over any run that does not touch it, across wraps and suspensions, a delayed task is ready iff its absolute deadline has been processed. |
| `KernelRuns.BlockedForItsTime` | rtos/source/tasks.c:8415-8490 | A task that blocks for d ticks at absolute time T is, over any run that does not touch it, ready iff tick T + d has been processed. |
| `KernelRuns.SwitchRunsHighest` | rtos/source/tasks.c:5056-5139 | After any run a context switch with the scheduler running ends and picks a ready task of highest priority. |
| `KernelRuns.ZeroWaitAtWrap` | rtos/source/tasks.c:8415-8490 | A concrete run, from the start of the scheduler: a task that runs alone until the tick count is portMAX_DELAY and then blocks for no ticks is in the list that the next tick asserts to be empty. |
| `BlockingCalls.KeepsItsDeadline` | rtos/source/queue.c:1502-1649 | Over any number of turns of the loop of a call that waits, with any legal run of the kernel between them: it reports a time-out only if its whole wait is over, and each time it blocks it blocks until the deadline it began with; a wait for ever never times out. |
| `BlockingCalls.ReturnsAtItsDeadline` | rtos/source/queue.c:1502-1649 | Whatever woke it for nothing before: after its last block the task is ready, over any run that does not touch it, iff the wait counted from the start of the call is over, and within a wrap its next check reports the time-out iff it is. |
| `BlockingCalls.TurnKeepsTime` | rtos/source/tasks.c:5534-5600 | One turn, a check and perhaps a block, keeps what is left of the wait and the deadline of the block in step. |
| `TimeOuts.CheckExact` | rtos/source/tasks.c:5534-5600 | A time-out check is right except exactly when a whole wrap has passed, the tick count shows less than at entry, and what is left beyond whole wraps is short of the wait. |
| `TimeOuts.CheckMissesTimeOut` | rtos/source/tasks.c:5534-5600 | A concrete time-out that the check misses: a wait of 2^32 - 2 ticks, 2 * 2^32 - 3 ticks after it began at tick 5. |
| `TimeOuts.CheckWithinOneWrap` | rtos/source/tasks.c:5534-5600 | Within one wrap a check is right, and the wait that is left is the wait less the ticks that passed. |
| `TimeOuts.MaxDelayNeverTimesOut` | rtos/source/tasks.c:5562-5568 | A wait of portMAX_DELAY never times out. |
| `TimeOuts.ChecksExact` | rtos/source/tasks.c:5534-5600 | Over repeated checks with less than a wrap between them: wait left + ticks elapsed = wait asked for, until a time-out is reported exactly when the wait is used up. |
| `TimeOuts.DelayUntilExact` | rtos/source/tasks.c:2343-2399 | Called within one wrap of the previous wake time: delays iff the new wake time is still ahead, and for the right number of ticks. |
| `TimeOuts.DelayUntilLate` | rtos/source/tasks.c:2343-2399 | Called later than that: wrong exactly when what is left beyond whole wraps is short of the increment. |
| `TimeOuts.DelayUntilDelaysLate` | rtos/source/tasks.c:2343-2399 | A concrete call that delays for 5 ticks though the wake time passed nearly a wrap ago. |
| `TimeOuts.NoDrift` | rtos/source/tasks.c:2398-2399 | The n-th wake time shows start + n * increment, however late the calls were. |
| `TimeOuts.Clock.SetTimeOutState` | rtos/source/tasks.c:5506-5519 | Records the present absolute time as overflow count and tick count. |
| `TimeOuts.Clock.CheckForTimeOut` | rtos/source/tasks.c:5534-5600 | The check with the abort flag: an aborted delay is a time-out, once, and leaves the wait as it was. |
| `TimeOuts.Clock.DelayUntil` | rtos/source/tasks.c:2343-2428 | Moves the previous wake time on by the increment and decides by the code's own comparisons, however late the call; within a wrap it delays iff the wake time is ahead, and until then. |
| `QueueStorage.SendRefines` | rtos/source/queue.c:2390-2470 | A send to back, to front, or an overwrite is that operation on a sequence; the write slot stays at read slot + count + 1 modulo the length, so no unread item is overwritten but by an overwrite. |
| `QueueStorage.ReceiveRefines` | rtos/source/queue.c:2473-2490 | A receive takes the first item of the sequence. |
| `QueueStorage.ResetIsEmpty` | rtos/source/queue.c:303-326 | A reset queue is empty and its two positions are in order. |
| `QueueStorage.Queue.Send` | rtos/source/queue.c:939-1010 | Accepted iff there is room or it overwrites; then the messages are the old ones with the new one at the end asked for. |
| `QueueStorage.Queue.Receive` | rtos/source/queue.c:1502-1565 | Fails iff empty; otherwise returns and removes the first message. |
| `QueueStorage.Queue.Peek` | rtos/source/queue.c:1910-1921 | Returns the first message and leaves the queue as it was. |
| `QueueStorage.Queue.CopyDataToQueue` | rtos/source/queue.c:2390-2470 | The three copies on the array, with their wrap of positions. |
| `QueueStorage.Queue.CopyDataFromQueue` | rtos/source/queue.c:2473-2490 | The read position moves on, with wrap, and the item there is returned. |
| `QueueLocks.WakeManyKeeps` | rtos/source/queue.c:2494-2611 | Unlocking wakes the first waiting tasks, one for each unit counted, or all of them. |
| `QueueLocks.PostedKeeps` | rtos/source/queue.c:270-300 | An interrupt that adds a unit wakes a task or counts the unit, unless the count is at its cap: no unit goes unaccounted for. |
| `QueueLocks.StepKeeps` | rtos/source/queue.c:939-1154 | Each step of a task, an interrupt or a time-out, and each suspension, deletion or reset that strands no task, keeps the accounting of both sides. |
| `QueueLocks.RunKeeps` | rtos/source/queue.c:939-1154 | So does any run without a suspension, deletion or reset that strands a waiting task. |
| `QueueLocks.SuspendExact` | rtos/source/tasks.c:3121-3165 | Suspending or deleting a task, whatever it is doing on the queue, keeps the accounting iff it was not the woken task that a unit depends on while others wait. |
| `QueueLocks.ResetExact` | rtos/source/queue.c:303-361 | A reset keeps the accounting iff it does not leave senders waiting with more free slots than woken senders. |
| `QueueLocks.NoLostWakeup` | rtos/source/queue.c:258-300 | No lost wakeup, in any interleaving from a new queue without such a suspension, deletion or reset: while tasks wait to receive on an unlocked queue, the items do not exceed the woken tasks that have yet to look; the same for senders and free slots. |
| `QueueLocks.ItemsCounted` | rtos/source/queue.c:939-1649 | Over any run, whoever waits: the number of items is that of a counter from 0 to the length that each send counts up while there is room, each receive down while there is something, and a reset clears. |
| `QueueLocks.JoinsBehindEquals` | rtos/source/tasks.c:5243-5269 | A task that is to wait joins the event list behind all tasks of its priority or a higher one and before all others. |
| `QueueLocks.LostBySuspension` | rtos/source/tasks.c:3121-3165 | A concrete run from a new queue, disciplined but for one suspension or deletion of a woken receiver, that ends with an item in the queue, a task waiting for it and nobody woken to take it. |
| `QueueLocks.LostByReset` | rtos/source/queue.c:303-361 | A concrete run from a new queue, disciplined but for one reset, that ends with a free slot, a task waiting to send and nobody woken to use it. |
| `QueueLocks.WaitGoes` | rtos/source/queue.c:1566-1640 | All the steps of a task that finds nothing and waits, when nothing interrupts them, come to one change: it has joined the event list, and the queue is unlocked again. |
| `KernelEvents.AsleepAfter` | rtos/source/tasks.c:5341-5392 | Any operation that is not about a task on an event list leaves it there with its deadline, or has made it ready. |
| `KernelEvents.StatusAfter` | rtos/source/tasks.c:4715-4804 | Any operation that is not about a task leaves it as it is or makes it ready, and makes it ready if its deadline is processed. |
| `QueueCalls.StartJoined` | rtos/source/queue.c:566-610 | A new queue and the scheduler at its start agree. |
| `QueueCalls.CallRuns` | rtos/source/queue.c:939-1649 | The operations that a step of a call makes on the scheduler are allowed there, make every task that the step wakes ready, and leave all others alone. |
| `QueueCalls.MoveKeeps` | rtos/source/queue.c:939-1649 | Each step of a call on a queue together with what it does in the scheduler, and any other operation of the scheduler in between, keeps: tasks that wait at the queue are on an event list with their time not up, tasks that were woken are ready, and while the queue is locked the scheduler is suspended and the locker runs. |
| `QueueCalls.EveryUnitHasATaker` | rtos/source/queue.c:258-300 | In every reachable state: while a task waits at an unlocked queue, every item, or every free slot, has a task that was woken for it and is ready in the scheduler, and the waiting task is blocked with its deadline still ahead. |
| `QueueCalls.HeadIsWoken` | rtos/source/queue.c:1012-1040 | A task that a step takes off its event list is ready at once and waits no more. |
| `QueueCalls.UnitReachesWaiter` | rtos/source/queue.c:1502-1649 | A task waits for an item or a free slot until a deadline: over any run of calls, interrupts, ticks and whatever else, that does not suspend or delete it, it is ready once the deadline is processed, and before that as soon as the unlocked queue has a unit for which no other task was woken; until then it waits on with the same deadline. |
| `QueueLocks.QuiescentQueue` | rtos/source/queue.c:1502-1649 | Once all woken tasks have looked, no task waits to receive from a queue with items, none waits to send to one with room, and not both sides wait. |
| `QueueLocks.WokenIsHighest` | rtos/source/tasks.c:5243-5269 | The task at the head of an event list has the highest priority of all that wait. |
| `QueueLocks.LockCountsFit` | rtos/source/queue.c:277-300 | With at most 127 tasks the lock counts fit an int8_t and the assertion in the increment cannot fail. |
| `QueueLocks.QueueControl.constructor` | rtos/source/queue.c:566-610 | A new queue accounts for everything. |
| `QueueLocks.QueueControl.TrySend` | rtos/source/queue.c:956-1067 | One send step; tells whether it was done. |
| `QueueLocks.QueueControl.TrySendFromISR` | rtos/source/queue.c:1157-1326 | One send step from an interrupt; a locked queue is only counted up. |
| `QueueLocks.QueueControl.ResetQueue` | rtos/source/queue.c:303-361 | The queue is empty and unlocked and one waiting sender is woken; the accounting is kept iff that is enough. |
| `QueueLocks.QueueControl.TryReceive` | rtos/source/queue.c:1502-1565 | One receive step. |
| `QueueLocks.QueueControl.TryPeek` | rtos/source/queue.c:1910-1946 | One peek step: the next waiting task is woken in the place of the one that peeked. |
| `QueueLocks.QueueControl.TryReceiveFromISR` | rtos/source/queue.c:2035-2132 | One receive step from an interrupt. |
| `QueueLocks.QueueControl.LockFor` | rtos/source/queue.c:258-271 | Locking starts both counts at zero and keeps counts that run. |
| `QueueLocks.QueueControl.CheckAgain` | rtos/source/queue.c:1598-1648 | The second look, under the lock. |
| `QueueLocks.QueueControl.PlaceOnEventList` | rtos/source/tasks.c:5243-5269 | The task joins the event list in order of priority. |
| `QueueLocks.QueueControl.UnlockTxSection` | rtos/source/queue.c:2502-2580 | The loop wakes one receiver for each item counted. |
| `QueueLocks.QueueControl.UnlockRxSection` | rtos/source/queue.c:2583-2610 | The loop wakes one sender for each slot counted. |
| `Mutexes.StepAccounted` | rtos/source/tasks.c:6580-6890 | Each step, also the suspension or deletion of a task wherever it has got to, keeps: priority at least base priority, hold count = number of mutexes that name the task, base priority when it holds none. |
| `Mutexes.RunAccounted` | rtos/source/tasks.c:6580-6890 | So does every run, with priorities set by hand, any nesting of mutexes, suspensions and deletions. |
| `Mutexes.GiveRunsHighest` | rtos/source/queue.c:999-1063 | After a give the running task is still of highest priority, or a switch was asked for, iff the give does not undercut: drop below another ready task while the one woken does not outrank it. |
| `Mutexes.TakeHoldersAbove` | rtos/source/queue.c:1689-1735 | After a take every holder is at or above the tasks queued on its mutexes iff the take does not jump the queue: of a free mutex that a higher task waits for, by a task that runs on with the scheduler suspended although a switch is due. |
| `Mutexes.RemovedWokenAbove` | rtos/source/tasks.c:3121-3165 | After a suspension or deletion every free mutex with waiters still has a woken task above them that is about to take it, iff the task taken away was not the last such task. |
| `Mutexes.WaitHoldersAbove` | rtos/source/tasks.c:6580-6676 | After a wait every holder is at or above the tasks queued on its mutexes iff the holder waited for is not itself queued on a mutex of a task lower than the running one. |
| `Mutexes.WaitExact` | rtos/source/tasks.c:6580-6676 | A wait keeps all of it iff it does not raise a holder that itself waits out of turn or above the task it waits for, and the event list items lead the running task to its place by priority. |
| `Mutexes.AfterTimeoutExact` | rtos/source/tasks.c:6777-6890 | What a task that timed out does keeps all of it iff the holder, which falls to what the first event list item shows, comes below no waiter and out of turn nowhere. |
| `Mutexes.RepricedExact` | rtos/source/tasks.c:6580-6890 | A new priority of any one task, whatever it holds and waits for, keeps all of it iff it unsettles no mutex. |
| `Mutexes.FlatRunIsDisciplined` | rtos/source/tasks.c:6580-6890 | While tasks wait for a mutex only when they hold none, no wait and no time-out is against the discipline. |
| `Mutexes.SetPriorityExact` | rtos/source/tasks.c:2765-2972 | Setting a priority by hand keeps all of it iff it unsettles no mutex: puts a waiter out of turn or above the task it waits for, or a holder, or the one woken task, below a waiter. |
| `Mutexes.StepKeeps` | rtos/source/tasks.c:6580-6890 | Each step of the discipline keeps every holder at or above all tasks queued on its mutexes, a woken task above the waiters of every free mutex, and every event list in order of priority. |
| `Mutexes.HolderOutranksWaiters` | rtos/source/tasks.c:6580-6890 | In every disciplined run, with waits of tasks that hold mutexes themselves, time-outs, suspensions, deletions and priorities set by hand: a holder runs at least at the priority of every task queued on its mutexes. Disciplined is a run none of whose steps is one that the following lemmas show to break it. |
| `MutexFailures.ApproachRuns` | rtos/source/queue.c:1667-1800 | The sixteen disciplined steps from the start to the state in which one task holds two mutexes and three wait for them. |
| `MutexFailures.UndercutBreaksInheritance` | rtos/source/queue.c:999-1063 | A concrete run from the start, disciplined but for one give, in which the code breaks this: after the undercutting give the task takes the mutex again and runs below a task that waits for it. |
| `MutexFailures.JumpBreaksInheritance` | rtos/source/queue.c:1689-1735 | A concrete run from the start, disciplined but for one take: with the scheduler suspended a task gives a mutex back and takes it again over the head of a higher waiter. |
| `MutexFailures.RobberyBreaksInheritance` | rtos/source/tasks.c:2191-2306 | Concrete runs from the start, disciplined but for one suspension or one deletion: of the task that was just woken to take the mutex, after which a lower task takes it and is not raised for those that still wait. |
| `MutexFailures.SettingBreaksInheritance` | rtos/source/tasks.c:2765-2972 | A concrete run from the start, disciplined but for one priority set by hand: a waiting task is raised above the holder, which is not raised with it. |
| `MutexFailures.NestedWaitBreaksInheritance` | rtos/source/tasks.c:6580-6676 | A concrete run from another start, disciplined but for its last step, and with a harmless wait of a task that holds a mutex: when that task is waited for in turn, the priority it inherits does not reach the task it waits for. |
| `MutexFailures.OvertakingBreaksInheritance` | rtos/source/tasks.c:6580-6676 | A concrete run, disciplined but for one wait: a holder that waits itself is raised above the task it is queued behind and is not moved; that task is woken first and then holds the mutex below it. |
| `MutexFailures.MisfilingBreaksInheritance` | rtos/source/tasks.c:2895-2898 | A concrete run, disciplined but for one wait: a task that has set its base priority while it runs at an inherited one is queued by the base, behind a lower task, which then holds the mutex below it. |
| `MutexFailures.FallingBreaksInheritance` | rtos/source/tasks.c:6777-6890 | A concrete run, disciplined but for the step after a time-out: the holder falls to the base priority that the item of such a task shows, below the task. |
| `Mutexes.AfterTimeoutForm` | rtos/source/tasks.c:6777-6890 | After a waiter has timed out the holder never rises, and falls back to what its waiters still need, provided that the item of the first of them shows its priority. |
| `MutexHolding.StepOwes` | rtos/source/queue.c:756-852 | Of the task that holds a mutex, each step of a run adds a take, or a give, to what it owes, or changes nothing; with the last give the mutex is free. |
| `MutexHolding.HeldUntilGivenBack` | rtos/source/queue.c:756-852 | Over any run, with whatever other tasks do: the task that took a free mutex holds it for as long as it has made fewer gives than takes of it since, as counted from the steps of the run (of a mutex that is not recursive: until its first give), and the mutex is free as soon as it has made as many. |
| `MutexHolding.FreeUntilTaken` | rtos/source/queue.c:815-852 | A free mutex stays free over any run without a take of it. |
| `MutexHolding.PriorityAfter` | rtos/source/tasks.c:6580-6890 | Exactly what each step does to the priority of each task: waiting lifts the holder to the waiter, the give of the last mutex returns it to its base, a time-out leaves it what the first remaining waiter shows but not less than its base, a priority set by hand takes nothing inherited away, and no other step changes any. |
| `MutexHolding.WaitersAfter` | rtos/source/queue.c:1689-1800 | Exactly what each step does to the tasks that wait for a mutex: a task waits from its wait on until the give that frees the mutex wakes it, which takes the first in the list and leaves it ready and about to take the mutex, or it times out, is suspended or is deleted. |
| `Mutexes.MutexControl.PriorityInherit` | rtos/source/tasks.c:6580-6676 | The holder is raised to the caller iff below it; returns whether it runs at an inherited priority. |
| `Mutexes.MutexControl.PriorityDisinherit` | rtos/source/tasks.c:6683-6770 | One mutex less; the base priority returns with the last one; returns whether the priority dropped. |
| `Mutexes.MutexControl.PriorityDisinheritAfterTimeout` | rtos/source/tasks.c:6777-6890 | The holder of one mutex falls back to the larger of its base priority and the waiters' highest. |
| `Mutexes.MutexControl.TryTake` | rtos/source/queue.c:815-852 | One take step, recursive or not: it succeeds iff the mutex is free or recursive and held by the task that takes it. |
| `Mutexes.MutexControl.WaitFor` | rtos/source/queue.c:1778-1800 | Inherit, then join the event list. |
| `Mutexes.MutexControl.GiveBack` | rtos/source/queue.c:756-808 | One give step, recursive or not. |
| `Mutexes.MutexControl.ReturnMutex` | rtos/source/queue.c:2401-2412 | The mutex is free again and the first waiter will try to take it. |
| `Mutexes.MutexControl.RemoveTask` | rtos/source/tasks.c:3121-3165 | A suspended or deleted task is out of the ready tasks and of the event list it waited in; a switch is due if it is the running one. |
| `Mutexes.MutexControl.PrioritySet` | rtos/source/tasks.c:2765-2972 | The base priority changes; an inherited priority is kept unless the new one is higher. |
| `Timers.ClassifyExact` | rtos/source/timers.c:894-935 | For a command of time C processed at C <= N < C + 2^32 and period 0 < p < 2^32: "process now" iff C + p <= N; otherwise the current list iff C + p lies in the epoch of N, else the overflow list, for the next epoch. |
| `Timers.ClassifyLate` | rtos/source/timers.c:894-935 | However late it is processed: the verdict is wrong exactly when at least a wrap has passed and what is left beyond whole wraps is short of the period. |
| `Timers.ClassifyFilesLate` | rtos/source/timers.c:894-935 | A concrete start command that is processed a wrap late: the timer expired long ago and is filed as if it had still to come. |
| `Timers.LastShownExact` | rtos/source/timers.c:894-935 | A command that carries a tick and is processed less than a wrap after it was sent was sent at the last time that shows this tick; one processed later was not. |
| `Timers.MissedCount` | rtos/source/timers.c:699-715 | A reload replays exactly floor((N - X) / p) further expiries. |
| `Timers.ReloadTarget` | rtos/source/timers.c:699-715 | A reload ends with the first expiry after N, in the epoch of N or the next. |
| `Timers.ExpiredKeeps` | rtos/source/timers.c:718-745 | Processing an expiry keeps the lists and the record of callbacks in order. |
| `Timers.SwitchRefilesAhead` | rtos/source/timers.c:1086-1108 | A list switch drains the old list and files only expiries of the next epoch. |
| `Timers.SampleExact` | rtos/source/timers.c:871-891 | The test for a wrap of the tick count is right iff less than a wrap has passed since time was looked at last. |
| `Timers.SampledKeeps` | rtos/source/timers.c:871-891 | When it is, the lists again hold this epoch and the next. |
| `Timers.BlocksUntilNext` | rtos/source/timers.c:782-841 | The time the task blocks for, modulo 2^32, ends in absolute time at the next expiry, or with the wrap of the tick count if only later timers are left; it is no ticks only at tick 0. |
| `Timers.LooksInTime` | rtos/source/timers.c:782-841 | So a task that looks again `late` ticks after its block has ended is in time for that test iff late < 2^32 - wait; it always is if late is less than the tick it looked at before, and with only later timers left not otherwise. |
| `Timers.OneTickLate` | rtos/source/timers.c:782-841 | A concrete state of the running timer task with one timer for the next epoch, in which a task that looks one tick late does not see the wrap. |
| `Timers.StepKeeps` | rtos/source/timers.c:938-1083 | Every command and every processed expiry keeps the invariant. |
| `Timers.CallbacksAreExact` | rtos/source/timers.c:699-745 | In every run: an active timer is in exactly one list, its next expiry is start + (callbacks + 1) * period, none was early, and once the list is caught up the callbacks number exactly floor((N - start) / period). |
| `Timers.StartedRecord` | rtos/source/timers.c:999-1028 | A start counts from the time it was sent; a one-shot timer that has expired by then is called once and is not active, and any other timer runs. |
| `Timers.SetRecord` | rtos/source/timers.c:1036-1049 | A change of period gives the timer that period and counts from the time it is processed. |
| `TimerHistory.StepElapsed` | rtos/source/timers.c:718-745 | A step that is not about a timer lets time pass for it at most: its period and its start stay, an auto-reload timer stays active, and a one-shot timer is called once if it is no longer active. |
| `TimerHistory.CallbacksFollowCommands` | rtos/source/timers.c:938-1083 | From the commands of a run alone: a timer exists iff it was created and not deleted since, has the period last given, is not active if not set going, and if it was, its callbacks number floor((N - B) / p), or one iff B + p <= N for a one-shot timer, where B is when the last start was sent or a later change of period processed. |
| `Timers.TimerTask.InsertTimerInActiveList` | rtos/source/timers.c:894-935 | Files the timer by its absolute expiry, or reports that it is due. |
| `Timers.TimerTask.ReloadTimer` | rtos/source/timers.c:699-715 | The loop ends; one callback for each missed expiry; the timer is filed for the first one ahead. |
| `Timers.TimerTask.ProcessExpiredTimer` | rtos/source/timers.c:718-745 | The head of the list is called back and reloaded, or made inactive. |
| `Timers.TimerTask.SwitchTimerLists` | rtos/source/timers.c:1086-1108 | The loop drains the current list and the lists change roles. |
| `Timers.TimerTask.SampleTimeNow` | rtos/source/timers.c:871-891 | The lists are switched iff a wrap has passed since the last look. |
| `Timers.TimerTask.ProcessTimerOrBlock` | rtos/source/timers.c:782-841 | The head is processed iff it is due and the lists were not switched just now; otherwise nothing is due, and it returns the time to block for, or that there is no timer to wait for. |
| `Timers.TimerTask.StartCommand` | rtos/source/timers.c:999-1028 | A start or reset, however late it is processed: filed, or expired at once, from the last time that shows the tick of the command, which the record has as its start. |
| `Timers.TimerTask.StopCommand` | rtos/source/timers.c:1030-1034 | The timer is out of its list and inactive. |
| `Timers.TimerTask.ChangePeriodCommand` | rtos/source/timers.c:1036-1049 | The timer is active with the new period, counted from now. |
| `Timers.TimerTask.DeleteCommand` | rtos/source/timers.c:1051-1075 | The timer is gone from list and records. |
| `EventGroups.ScanMeaning` | rtos/source/event_groups.c:577-633 | What the loop over the waiters leaves behind, in terms of membership alone. |
| `EventGroups.TestPerBit` | rtos/source/event_groups.c:775-809 | The test is met iff all awaited bits are there, or any of them, as asked for. |
| `EventGroups.SetReleasesExactly` | rtos/source/event_groups.c:547-645 | A set releases exactly the waiters satisfied by the old bits and the new ones together, each returns those bits, and exactly the bits the released ones clear are cleared. |
| `EventGroups.OrderDoesNotMatter` | rtos/source/event_groups.c:577-637 | Because clearing is deferred the order of the waiter list makes no difference. |
| `EventGroups.SatisfiedMonotone` | rtos/source/event_groups.c:775-809 | More bits satisfy whatever fewer bits satisfied. |
| `EventGroups.StepKeeps` | rtos/source/event_groups.c:336-404 | Set, clear, wait, sync and time-out each leave no queued waiter satisfied by the current bits. |
| `EventGroups.RunKeeps` | rtos/source/event_groups.c:185-309 | So does every run. |
| `EventGroups.EventGroup.SetEventBits` | rtos/source/event_groups.c:547-645 | The loop over the waiter list, with deferred clearing. |
| `EventGroups.EventGroup.ClearEventBits` | rtos/source/event_groups.c:472-501 | Returns the bits before the clear; a bit is left iff it was there and is not named. |
| `EventGroups.EventGroup.WaitBits` | rtos/source/event_groups.c:312-404 | Returns at once, with the bits as they are, iff all or any of the awaited bits are there or there is no wait; then exactly the awaited bits are cleared, if it was met and that was asked for; otherwise queues the task. |
| `EventGroups.EventGroup.SyncBits` | rtos/source/event_groups.c:185-251 | Sets the own bits and returns at once iff all awaited bits are there, clearing them; otherwise queues. |
| `EventGroups.EventGroup.AfterBlocking` | rtos/source/event_groups.c:406-465 | A released task returns the bits it was released with; one that timed out returns the bits that are there, and clears exactly the awaited ones if they now meet its wait and that was asked for. |
| `EventGroups.EventGroup.Delete` | rtos/source/event_groups.c:647-690 | Every waiter is released, with no bits. |
| `EventGroupBarrier.ArriveLast` | rtos/source/event_groups.c:185-309 | The last of N tasks to arrive releases all others with all bits and clears the group for the next round. |
| `EventGroupBarrier.TurnKeeps` | rtos/source/event_groups.c:185-309 | Each call, and each return of a released task, keeps the rounds apart. |
| `EventGroupBarrier.BarrierHolds` | rtos/source/event_groups.c:185-309 | For N tasks that each sync with an own bit on all bits, without time-outs, in any interleaving: no k-th call returns before every task has made its k-th call, every call returns all bits, and a task waits on only while another has not arrived. |
| `StreamBuffers.UsedAndFree` | rtos/source/stream_buffer.c:754-788 | Bytes used and bytes free always add up to xLength - 1, and the used bytes lead from tail to head. |
| `StreamBuffers.CountsExact` | rtos/source/stream_buffer.c:1566-1584 | In 32 bits the sums of the code are right iff they do not wrap, and always for a buffer of at most half the range of a size_t. |
| `StreamBuffers.LargeBufferMiscounts` | rtos/source/stream_buffer.c:1566-1584 | A concrete buffer above that size whose count of bytes is wrong. |
| `StreamBuffers.LengthRoundTrip` | rtos/source/stream_buffer.c:1285-1294 | Reading the length prefix undoes writing it, and the low byte comes first. |
| `StreamBuffers.ContentsAreRecords` | rtos/source/stream_buffer.c:1000-1050 | The bytes of a message buffer are always whole records: the sent messages not yet received, in order. |
| `StreamBuffers.LengthIsRight` | rtos/source/stream_buffer.c:1285-1294 | The length a reader reads is that of the first message not yet received. |
| `StreamBuffers.EndWriteKeeps` | rtos/source/stream_buffer.c:1000-1050 | Moving the head once, at the end, makes a whole message visible at once. |
| `StreamBuffers.EndReadKeeps` | rtos/source/stream_buffer.c:1276-1328 | A message is received whole, or stays in place when the receive buffer is too small. |
| `StreamBuffers.StepKeeps` | rtos/source/stream_buffer.c:1476-1563 | Each single byte copied by writer or reader keeps all this. |
| `StreamBuffers.ReceivedInOrder` | rtos/source/stream_buffer.c:1000-1050 | Any byte-by-byte interleaving of one writer and one reader: messages are received whole, once each and in order; stream bytes likewise; and sent less received bytes are exactly the bytes in use. |
| `StreamTransfers.WriteGoes` | rtos/source/stream_buffer.c:1000-1050 | What there is room for can be sent, whatever the reader is at: a whole message, or the bytes of a stream that fit, in one write. |
| `StreamTransfers.ReadGoes` | rtos/source/stream_buffer.c:1276-1328 | What the buffer holds can be received, whatever the writer is at: the first message if it is not longer than asked for, or the first bytes, in one read; a message that is longer stays. |
| `StreamBuffers.StreamBuffer.WriteBytesToBuffer` | rtos/source/stream_buffer.c:1476-1519 | The two copies put the bytes behind the head, wherever the ring wraps. |
| `StreamBuffers.StreamBuffer.ReadBytesFromBuffer` | rtos/source/stream_buffer.c:1522-1563 | The two copies read from the tail on, wherever the ring wraps. |
| `StreamBuffers.StreamBuffer.Send` | rtos/source/stream_buffer.c:808-940 | Without waiting: sends a whole message or none of it, or as many bytes of a stream as fit. |
| `StreamBuffers.StreamBuffer.WriteMessageToBuffer` | rtos/source/stream_buffer.c:1000-1050 | The contents grow by the record, or by the bytes that fit, in one move of the head. |
| `StreamBuffers.StreamBuffer.Receive` | rtos/source/stream_buffer.c:1053-1166 | Without waiting: the first message whole, or the first bytes; nothing of a message that does not fit. |
| `StreamBuffers.StreamBuffer.ReadMessageFromBuffer` | rtos/source/stream_buffer.c:1276-1328 | The contents lose exactly what is returned, and its length. |
| `MemPool.ZoneExact` | src/common/tbox_mp.c:75-129 | The zone chosen is that of the smallest size class that is large enough. |
| `MemPool.ZonesIncrease` | src/common/tbox_mp.c:54-61 | The real chunk sizes of the zones increase from each zone to the next. |
| `MemPool.ZoneIndex` | src/common/tbox_mp.c:75-129 | The branches and the table look-up compute that zone and round the size up to its class. |
| `MemPool.HeaderRoundTrip` | src/common/tbox_mp.c:20-26 | Magic, used bit and size are read back from a header word as they were packed. |
| `MemPool.TableFitsExactly` | src/common/tbox_mp.c:131-164 | The zone table that creation writes lies inside the buffer iff the size exceeds that of the table by at least the bytes that aligning the start skips; then what is left is room for the table, and never more than the buffer. |
| `MemPool.TableOverruns` | src/common/tbox_mp.c:131-164 | A concrete buffer that creation accepts and whose table ends beyond it. |
| `MemPool.AllocKeeps` | src/common/tbox_mp.c:206-281 | An allocation is refused iff the size is none, or too large for any zone, or the free list of its zone is empty and there is no room for a new chunk; a refusal changes nothing; otherwise it hands out a zeroed block of the size asked for that was free, and changes no byte outside its chunk, the links of the free lists aside. |
| `MemPool.FreeKeeps` | src/common/tbox_mp.c:283-339 | A free returns the chunk to the list of its own zone, and keeps the pool in order. |
| `MemPool.FreeForm` | src/common/tbox_mp.c:283-339 | A freed chunk goes to the end of the free list of its own zone, is marked unused, and nothing else changes. |
| `MemPool.DoubleFreeDoesNothing` | src/common/tbox_mp.c:283-339 | Freeing a block that is not live changes nothing. |
| `MemPool.ClientWriteKeeps` | src/common/tbox_mp.c:206-281 | A client that writes inside its block disturbs no header and no guard. |
| `MemPool.ByteKeeps` | src/common/tbox_mp.c:20-33 | A write to the zone table, or behind the first word of a free chunk, where the links are, disturbs no header and no guard. |
| `MemPool.CheckExact` | src/common/tbox_mp.c:341-403 | While clients keep to their blocks, mp_check is OK for every live block and reports every other address handed out. |
| `MemPool.DamageShows` | src/common/tbox_mp.c:341-403 | Whatever was written outside the header of a live block: mp_check reports an underflow iff a byte of the guard 0xDEADBEEF before the block was changed, else an overflow iff one of the guard behind it was, and else that all is well. |
| `MemPool.RunIsSafe` | src/common/tbox_mp.c:206-403 | After any run, whatever is written to the links of the free lists on the way: live blocks with headers and guards lie in the pool and are disjoint, every byte between the zone table and pos is in exactly one chunk, each chunk is live or free but not both, and live blocks check out. |
| `MemPool.ZonesUntouched` | src/common/tbox_mp.c:206-339 | Whatever is written to the links of the free lists, in the zone table and in free chunks: no run changes the zone marks and sizes that allocation and free compare. |
| `MemPool.Create` | src/common/tbox_mp.c:131-177 | No pool for a buffer that is not larger than the zone table; otherwise an empty pool in order, of the aligned size. |
| `MemPool.MemoryPool.constructor` | src/common/tbox_mp.c:131-177 | An empty pool is in order, whatever the alignment of its buffer, if the table fits. |
| `MemPool.MemoryPool.AllocInternal` | src/common/tbox_mp.c:63-73 | A chunk is cut at pos iff there is room. |
| `MemPool.MemoryPool.Alloc` | src/common/tbox_mp.c:206-281 | Zone, free list or new chunk, header, guards and clearing, on the bytes of the pool. |
| `MemPool.MemoryPool.Free` | src/common/tbox_mp.c:283-339 | The checks of range and header, and the return to the free list, for any address; for every address that was handed out, or is outside, the pool is in order again. |
| `MemPool.MemoryPool.CheckBlock` | src/common/tbox_mp.c:341-403 | The checks in order, with the error of the first that fails, for any address; for every address that was handed out the verdict is that of the live blocks. |
| `DList.DList.constructor` | src/common/tbox_dlist.c:5-13 | A new list is a ring of its head alone. |
| `DList.DList.Empty` | src/common/tbox_dlist.c:15-22 | Whether the list has no node. |
| `DList.DList.AddHead` | src/common/tbox_dlist.c:24-35 | The node comes first; the ring is well formed again. |
| `DList.DList.AddTail` | src/common/tbox_dlist.c:37-48 | The node comes last; the ring is well formed again. |
| `DList.DList.DelEntry` | src/common/tbox_dlist.c:50-60 | Exactly that node is gone from the ring. |
| `DList.DList.Count` | src/common/tbox_dlist.c:96-110 | The walk ends and counts every node once. |
| `DList.DList.PopFirst` | src/common/tbox_dlist.c:112-125 | The first node is returned and gone, if there is one. |
| `DList.DList.HasNode` | src/common/tbox_dlist.c:142-158 | The walk ends and finds the node iff it is in the list. |
| `HashMap.BucketNum` | src/common/tbox_hashmap.c:86-100 | There is a bucket in every map, and not more buckets than nodes. |
| `HashMap.ChainBounded` | src/common/tbox_hashmap.c:102-121 | No chain is longer than the capacity, so the loops bounded by it reach the end of every chain. |
| `HashMap.LinkedAppend` | src/common/tbox_hashmap.c:220-236 | Linking a node behind the last one makes the chain longer by it at the end. |
| `HashMap.LinkedUnlink` | src/common/tbox_hashmap.c:263-283 | Skipping a node leaves a chain of all the others in order. |
| `HashMap.OthersLinked` | src/common/tbox_hashmap.c:220-236 | What happens within one chain leaves all others alone. |
| `HashMap.DrainedOnce` | src/common/tbox_hashmap.c:292-318 | Repeated removal until none is left takes each entry exactly once. |
| `HashMap.RemoveAll` | src/common/tbox_hashmap.c:292-318 | Removing one entry again and again until that fails ends with an empty map, and the values returned are those of the map, one for each key. |
| `HashMap.Create` | src/common/tbox_hashmap.c:123-169 | No map of no capacity; otherwise an empty map. |
| `HashMap.HashMap.constructor` | src/common/tbox_hashmap.c:123-169 | A new map is empty, with all nodes in the free queue. |
| `HashMap.HashMap.Push` | src/common/tbox_hashmap.c:45-63 | The free queue is longer by the node, at the end. |
| `HashMap.HashMap.Pop` | src/common/tbox_hashmap.c:65-84 | The first free node is taken, if there is one. |
| `HashMap.HashMap.FindNode` | src/common/tbox_hashmap.c:102-121 | Finds the node of the key iff the map has the key. |
| `HashMap.HashMap.Get` | src/common/tbox_hashmap.c:180-195 | Returns the value of the key, or that there is none. |
| `HashMap.HashMap.Put` | src/common/tbox_hashmap.c:197-246 | The finite map with the key set; refused iff the key is new and the map is full. |
| `HashMap.HashMap.Remove` | src/common/tbox_hashmap.c:248-290 | The finite map without the key. |
| `HashMap.HashMap.RemoveOne` | src/common/tbox_hashmap.c:292-318 | Fails iff the map is empty; otherwise takes one entry out and returns its value. |
| `Cobs.RoundTrip` | src/common/cobs.c:15-67 | Decoding undoes encoding, for every packet. |
| `Cobs.EncodeNext` | src/common/cobs.c:15-36 | What the encoding is, without the kept code position: for a next zero, or the end, k < 254 bytes on, the code k + 1 and these bytes; otherwise the code 255 and 254 bytes; and then the encoding of the rest. |
| `Cobs.EncodeNoZeros` | src/common/cobs.c:15-36 | No byte of an encoding is zero. |
| `Cobs.EncodeLength` | src/common/cobs.c:15-36 | An encoding is longer than the packet, by at most 1 + (len - 1) / 254 bytes. |
| `Cobs.DecodeLength` | src/common/cobs.c:46-67 | A decoding is shorter than its input, whatever the input. |
| `Cobs.EncodeInto` | src/common/cobs.c:15-36 | The loop with its kept code position writes exactly the encoding, and nothing beyond. |
| `Cobs.DecodeInto` | src/common/cobs.c:46-67 | The loop writes exactly the decoding, never reads past its input and never writes more bytes than it has. |
| `Crc32.StepsLinear` | script/MakeUpdatePack.py:22-33 | The table is linear in the register. |
| `Crc32.LookUpExact` | script/MakeUpdatePack.py:53 | One look-up does the work of eight bits of the shift register. |
| `Crc32.RegisterAppend` | script/MakeUpdatePack.py:64-78 | The register after two stretches is that of the second begun where the first ended. |
| `Crc32.TopBit` | script/MakeUpdatePack.py:22-33 | The remainder of the highest bit of a byte is the polynomial 0xEDB88320. |
| `Crc32.CheckValue` | script/MakeUpdatePack.py:18-80 | The characters 123456789 give 0xCBF43926, the check value of CRC-32, and no characters give 0. |
| `Crc32.GenerateTable` | script/MakeUpdatePack.py:22-33 | The table has the remainder of each byte. |
| `Crc32.Crc32FromData` | script/MakeUpdatePack.py:18-80 | In chunks of 256 with the final XOR undone and redone between them, the result is the bit-serial CRC-32 of section 8 of RFC 1952, for every input. |
| `CQueue.MaskIsModulus` | src/common/cqueue.c:63-81 | Masking with a power of two less one is the remainder. |
| `CQueue.AlignToPower` | src/common/cqueue.c:22-38 | The shifting loop gives the largest power of two not above the size. |
| `CQueue.LowBitsSurvive` | src/common/cqueue.c:63-109 | A counter that has wrapped still masks to the right position. |
| `CQueue.DifferenceShows` | src/common/cqueue.c:117-137 | in - out modulo 2^32 is the length however often each has wrapped. |
| `CQueue.Create` | src/common/cqueue.c:150-162 | No queue in an empty buffer; otherwise an empty queue, of the largest power of two that fits. |
| `CQueue.ByteQueue.constructor` | src/common/cqueue.c:150-162 | An empty queue of a power of two. |
| `CQueue.ByteQueue.DataLen` | src/common/cqueue.c:128-137 | The number of bytes in the queue. |
| `CQueue.ByteQueue.Surplus` | src/common/cqueue.c:117-126 | The number of bytes there is room for. |
| `CQueue.ByteQueue.Put` | src/common/cqueue.c:63-81 | Appends as many bytes as there is room for, across both wraps. |
| `CQueue.ByteQueue.Get` | src/common/cqueue.c:83-102 | Takes the first bytes, in the order they were put in. |
| `CQueue.ByteQueue.Read` | src/common/cqueue.c:139-148 | Returns the first bytes and leaves the queue as it was. |
| `CQueue.ByteQueue.Discard` | src/common/cqueue.c:104-115 | Drops the first bytes. |
| `Md5.PadLengthExact` | src/common/md5.c:80-83 | The padding is 1 to 64 bytes and ends eight bytes short of a block, as in section 3.1 of RFC 1321. |
| `Md5.FoldAppend` | src/common/md5.c:53-77 | Folding two stretches of whole blocks one after the other is folding them together. |
| `Md5.CountedExact` | src/common/md5.c:56-62 | The two count words with their carry are the bit count modulo 2^64. |
| `Md5.CountIs64Bits` | src/common/md5.c:56-62 | Two such words are the bit count modulo 2^64. |
| `Md5.PaddedIsWhole` | src/common/md5.c:78-87 | A padded message is whole blocks and begins with the message. |
| `Md5.PaddedExact` | src/common/md5.c:78-87 | The padded message is the only one that sections 3.1 and 3.2 of RFC 1321 allow, stated byte by byte: the message, 0x80, as few zeros as give whole blocks, and the number of bits in eight bytes, low byte first. |
| `Md5.EncodedByte` | src/common/md5.c:88-97 | Byte 4 i + j of the encoded words is byte j of word i, low byte first. |
| `Md5.InitialBytes` | src/common/md5.c:45-52 | The first state is the sixteen bytes of section 3.3 of RFC 1321. |
| `Md5.LoopStopsExact` | src/common/md5.c:69-71 | The test of the block loop, whose sum wraps in 32 bits, says everywhere whether there is another block iff the last whole block does not end within 64 bytes of 2^32. |
| `Md5.LoopOverruns` | src/common/md5.c:69-71 | A concrete input, of 2^32 - 1 bytes, on which the loop takes a block beyond the end. |
| `Md5.WordsRoundTrip` | src/common/md5.c:88-106 | Decoding words undoes encoding them. |
| `Md5.Context.constructor` | src/common/md5.c:45-52 | The state of an empty message. |
| `Md5.Context.Update` | src/common/md5.c:53-77 | State, buffer and count are those of the message so far with the input appended, wherever block boundaries fall, for every input on which the block loop stops. |
| `Md5.Context.Final` | src/common/md5.c:78-87 | The state is the transform folded over the blocks of the message padded as RFC 1321 says, byte by byte, and the digest is its words, each low byte first. |
| `Md5.DigestOfParts` | src/common/md5.c:53-87 | However a message is split into updates on which the block loop stops, the digest is that of the whole, padded as RFC 1321 says, byte by byte. |

## Left out

Weaker than the source, or under an assumption the source does not make:

- Mutexes.HolderOutranksWaiters: only for disciplined runs; each step that is excluded is excluded by an exact condition on the state before it, and `MutexFailures.dfy` has a run for each kind in which the property is then false of the code.
- QueueLocks.NoLostWakeup: only for runs without a suspension or deletion of a woken task that a unit depends on and without a reset that frees more slots than it wakes senders, with each of which the property is false of the code; queues that are not in a queue set, and no co-routine calls; the priority of a waiting task stays what it was.
- Timers.CallbacksAreExact: the timer task looks at the time less than a wrap after it looked last while a timer is active (`Timers.LooksInTime` says when its own block provides that), and a command that is processed a wrap or more after it was sent counts as sent at the last time that shows its tick.
- EventGroupBarrier.BarrierHolds: without time-outs, and with no other use of the group.
- StreamBuffers.StreamBuffer.Send: without waiting; notification of the other side and blocking are not modelled.
- StreamBuffers.StreamBuffer.Receive: without waiting, as for Send.
- MemPool.RunIsSafe: the size computations are assumed not to wrap, and clients free only addresses they were given, or addresses outside the pool.
- MemPool.MemoryPool.Alloc: the comparison of the zone's mark and size is left out, as no run changes them (`MemPool.ZonesUntouched`).
- MemPool.MemoryPool.Free: not for the first 16 bytes of the pool, where the source reads a header from before it; for an address inside the pool that was never handed out the contract says what the code does, not that the pool stays in order; the zone checks are left out as for Alloc.
- MemPool.MemoryPool.CheckBlock: not for the first 16 bytes of the pool; a rear guard that would lie behind the pool counts as damaged.
- EventGroups.EventGroup.SetEventBits: returns the bits as the set leaves them; the source reads them after xTaskResumeAll, when a released task may already have changed them.
- StreamBuffers.UsedAndFree: on unbounded numbers; `StreamBuffers.CountsExact` says when a size_t of 32 bits agrees.
- BlockingCalls.ReturnsAtItsDeadline: the task gets to run within a wrap of its last check and its wait is not aborted; what the call waits for is only whether it finds something, turn by turn (for a queue, `QueueCalls.UnitReachesWaiter` says when the task is woken for it).
- QueueCalls.UnitReachesWaiter: one queue; that the task, once ready, is the one that gets the item is a matter of priorities (`KernelRuns.SwitchRunsHighest`); suspensions, deletions and resets that strand a waiting task are excluded as in `QueueLocks.NoLostWakeup`.
- Timers.TimerTask.InsertTimerInActiveList: the time a command was sent is the last time that shows its tick.
- Timers.TimerTask.ReloadTimer: the time of the expiry is the last time that shows its tick; that is the true one if the task looks at the time in time.
- Md5.Context.Update: only inputs on which the block loop stops (`Md5.LoopStopsExact`); on the others the source reads beyond the input.
- HashMap.HashMap.FindNode: keys are compared by equality, so equal keys hash equally; a key is a number, not a pointer to one.
- HashMap.HashMap.constructor: a capacity that is not zero, which `HashMap.Create` refuses; the refusal of a buffer that is too small is not modelled.
- MemPool.MemoryPool.constructor: a buffer in which the zone table fits; `MemPool.Create` refuses those that the source refuses, and of those that the source accepts but overruns `MemPool.TableFitsExactly` says which they are, not what becomes of the memory behind them.
- Md5.DigestOfParts: the block transform is any function of state and block; parts as for Update.
- Lists.RoundRobin: while the list does not change.
- KernelSharing.EqualShares: while the tasks of the highest ready list stay the same; `KernelSharing.NoStarvation` is for lists that change.
- KernelPreemption.HighestRuns: a caller that is told to yield does, and the port makes the switch that was asked for; that it comes in time is not modelled.

Not modelled:

- The pended tick count, the overflow count and the suspension depth are unbounded numbers; the C variables wrap.
- The lists of the scheduler are sequences with a walk index; that the pointers are such a sequence is proved once, in `Lists.dfy`.
- The fields of task control blocks are maps from tasks; control blocks are not objects of their own.
- The control block of a deleted task stays in the map of `Mutexes.dfy` as a record; what a mutex held by a deleted task means for others is that it stays held.
- Event lists are modelled where tasks wait on them (`QueueLocks.dfy`, `Mutexes.dfy`, `EventGroups.dfy`); the scheduler only knows that a task is on one.
- An item of a queue is one slot, not a run of bytes; a queue of length or item size zero is not created.
- Queue sets, co-routines and the queue registry.
- Event group calls from interrupts, which are passed on to the timer task.
- Timer callbacks that send commands: a callback only counts; functions pended to the timer task.
- Task notifications, software interrupts, context switch assembly, stack checks, names, traces and statistics.
- The free lists of the pool are sequences of chunk addresses; their links are bytes that may be written at will (`MemPool.LinkStep`), and that the library's list is such a sequence is proved once, in `DList.dfy`.
- `dlist_replace`, `dlist_move`, `dlist_move_tail` and `dlist_pop_last_node`, which are more of the same, and null arguments of the others.
- The handle table, mutex and creation checks of the pool; each pool call is one step.
- The nodes of the hash map are three parallel sequences (key, next, value) and not records in one buffer; the size check of its creation, and null maps.
- The round constants of MD5; the clearing of buffers after use.
- `croutine.c`, `data_queue.c`, `checksum.c`, `stateMachine.c`, and all start-up, driver and file code: nothing harder than what is here.
