# picoOS: a verified model of the kernel

picoOS is a small two-core kernel for the RP2040 and RP2350.  This project models six of its
parts in Dafny and proves what they are relied on for.  `dafny verify dfyconfig.toml` checks
everything.

**Scheduler and thread life cycle** (`Links`, `SchedSpec`, `SchedInv`, `SchedRuns`, `SchedOrder`,
`SchedLives`, `SchedTidy`, `SchedSafety`, `SchedAdrift`, `SchedStranded`, `SchedGuard`, `SchedHazard`,
`Kernel`).
The two cores, the eight ready queues and all waiter lists are a step system; one step is one
section under `sched_lock` or under a primitive's lock.
`Kernel.Scheduler` is the code itself, with one `next` cell per TCB shared by every list, and each
method is proved to take the step it stands for.  The run theorems say who frees a killed thread,
that it is freed once and with nothing pointing at it, and which thread a switch picks; `SchedOrder`
says that in priorities, states and affinities of TCBs alone.

**Blocking primitives** (`FlagBits`, `Wakeups`, `Sync`, `SyncRuns`, `EventRuns`).  Mutex, semaphore, event
flags and message queue, one method per locked section, on top of the scheduler.  A retry loop
appears as its rounds, and whole runs interleave one object with the rest of the kernel.

**Heap** (`Bytes`, `HeapBlocks`, `Heap`).  Headers are bytes of the managed array, linked by 32-bit
addresses; `kmalloc`, `kfree` and `kmem_stats` are proved against a list of blocks.

**Filesystem** (`FsSpec`, `FsProps`, `FsSteps`, `FsViews`, `FsRuns`, `FsNames`, `FsRemounts`, `Fs`).
The directory mirror, the one write buffer, the descriptors and NOR flash, with the superblock as
bytes; `FsNames` says what a call does for the name and the mode bits its caller passes.

**Scanning** (`ScanMachine`, `Scan`, `BtScan`, `BtFields`, `Bt`).  The triple buffer between radio
callback, poll thread and consumers as an interleaving machine, and the Bluetooth one-shot list;
`BtFields` says from which advertising structure of a report each field of a slot comes.

**Display** (`Line`, `Display`).  Line drawing and dirty rows.

**Threads, processes, stacks** (`TaskSpec`, `TaskPool`, `TaskRuns`, `TaskKills`, `TaskJoint`).  The
pools of `task.c` on top of the heap of `Heap`, killing across them and the scheduler, and whole runs
of the two side by side.

What the proofs bring to light:

* Blocking stores NULL in the link of a thread that is still on its ready queue, so everybody
  queued behind it drops off (`SchedRuns.BlockKeepsFullIff`, `SchedRuns.SwappedOrderLosesNobody`).
  `docs/locking.md:64` calls the sharing safe because a BLOCKED thread is on no ready queue; it is,
  one call later.  A READY thread on no core that drops off never runs again
  (`SchedTidy.CutOffForGood`), so a woken one does not come for its unit.  All runnable threads, the
  woken ones among them, stay queued exactly in the runs in which only the last thread of a queue
  blocks (`SyncRuns.WokenAreQueued`).
* If the thread dropped is an idle thread, a switch can find nothing to run; the core then goes on
  with the thread it had, blocked or dead as it may be.  A thread killed just after it blocked is
  freed that way while a waiter list still names it: a run of seven ordinary steps from the start
  ends there (`SchedHazard.FreedWhileListed`).  A free can go wrong after a blocking call exactly when
  an idle thread is queued behind the caller (`SchedGuard.BlockFreesSafelyIff`), which never happens
  above the lowest priority.  The run theorems are about runs that keep to this guard, called legal;
  they are exactly the runs of the code that never put a free at risk (`SchedGuard.LegalIffSafe`).
* `docs/locking.md:196` fears that `event_waiter_alloc` may find its pool full.  It cannot
  (`SchedInv.AllocCannotFail`).
* The comment at `src/kernel/sched.c:516` announces NULL when no thread is eligible; the code, and
  the model, return the thread that was current.
* Creating or deleting a file while another is open for writing puts the writer's unsaved size on
  flash.  A remount then reads the bytes last committed exactly when that size had not changed
  (`FsRemounts.FlushShowsSizeIff`), and otherwise for example erased flash
  (`FsRemounts.UnsavedSizeShows`).  A truncating open that finds the
  descriptor table full has already truncated the file in RAM (`FsViews.FailedOpenIff`).

## Model

| member | source | states |
|---|---|---|
| `SchedRuns.FreedOnceAndUnreferenced` | src/kernel/sched.c:236-260 | over every legal two-core run (no blocking call ahead of a queued idle thread) each thread incarnation is freed at most once, a freed ID is never live, and whichever step frees a thread finds it on no ready queue, on no waiter list, in no event-pool slot and current on no core but the one leaving it |
| `SchedRuns.FreedIsNowhere` | src/kernel/sched.c:236-260 | the same spelled out for whatever step empties a used slot after a legal run: the thread is on no ready queue and no waiter list, in no event-pool slot and current nowhere, and its ID joins the freed ones for the first time |
| `SchedRuns.ZombieHasOneReaper` | src/kernel/sched.c:262-308 | after any legal run a ZOMBIE has exactly one of the three parties that free it: the core it is current on, the primitive it is listed at, or its killer |
| `SchedRuns.RunKeepsInv` | src/kernel/sched.c:222-591 | the life-cycle invariant holds after every legal run of create, block, unblock, sleep, wake, exit, kill, free, switch and affinity steps |
| `SchedRuns.StepKeepsInv` | src/kernel/sched.c:222-591 | each single legal step keeps the invariant |
| `SchedRuns.FreeIsSafe` | src/kernel/sched.c:455-464 | a free, by the killer, by the waker or by a switch, logs the ID and leaves no reference behind |
| `SchedRuns.OnlyFreesFree` | src/kernel/sched.c:222-591 | no other step frees anything |
| `SchedRuns.CoresAndQueues` | src/kernel/sched.c:450-537 | after any run no thread is current on both cores, a RUNNING one is current on exactly one, and whoever is on ready queue p has TCB priority p, or more than 7 on queue 7, is on it once, and is READY, RUNNING or a ZOMBIE still current |
| `SchedRuns.StepKeepsFull` | src/kernel/sched.c:148-329 | every step but the blocking path keeps all READY and RUNNING threads, and ZOMBIEs still on a core, queued |
| `SchedRuns.SwitchKeepsFull` | src/kernel/sched.c:397-538 | a switch loses no runnable thread from the queues |
| `SchedRuns.BlockKeepsFullIff` | src/kernel/sync.c:391-392 | the composed blocking path keeps every runnable thread queued exactly when the caller was last on its ready queue |
| `SchedRuns.SwitchPicksBest` | src/kernel/sched.c:466-537 | a switch always finds a thread: of the queued READY threads that fit the core and are not current on the other one, the first of the best queue after rotation; in terms of TCB priorities in `SchedOrder.SwitchPicksUrgent` |
| `SchedOrder.SwitchPicksUrgent` | src/kernel/sched.c:466-537 | on TCB fields: the thread picked was READY or running there, is allowed on the core and not current elsewhere, and any such queued thread with a smaller priority number than the one picked has a priority of 7 or more |
| `SchedOrder.SwitchTakesTurns` | src/kernel/sched.c:475-492 | round robin, for queues of any length: exactly what a switch does to each ready queue.  A dead outgoing thread leaves it, a runnable one at its head goes behind all its peers unless the core turns to a better priority, and nothing else moves |
| `SchedOrder.SwitchPicksFirst` | src/kernel/sched.c:494-511 | nobody in front of the thread picked could have been put on the core |
| `SchedRuns.SwappedOrderLosesNobody` | src/kernel/sync.c:318-330 | exact effect of the two orders of waiter_enqueue and sched_block on the shared link: as coded the ready queue becomes the part in front of the caller, swapped only the caller leaves; they agree exactly when the caller was last |
| `SchedRuns.BlockKeepsInvIff` | src/kernel/sched.c:514-520 | blocking keeps the invariant if and only if no idle thread is queued behind the caller |
| `SchedGuard.BlockFreesSafelyIff` | src/kernel/sched.c:425-464 | after a blocking call no run can ever come to the free of a thread that something still refers to, if and only if no idle thread was queued behind the caller; for every sound state, the pool full or not |
| `SchedGuard.BlockIsSafeIff` | src/kernel/sched.c:514-520 | the same with switches that find nothing to run counted as going wrong too |
| `SchedGuard.LegalIffSafe` | src/kernel/sched.c:222-591 | of all runs the code allows, exactly the legal ones never pass through a state from which a free can go wrong, and exactly the legal ones never pass through one from which a free can go wrong or a switch can find nobody |
| `SchedTidy.TidyIffFull` | src/kernel/sync.c:391-392 | of all runs the code allows, exactly those in which only the last thread of a queue ever blocks keep every READY or RUNNING thread on its queue after every step |
| `SchedTidy.QueuedIffRunnable` | src/kernel/sched.c:140-200 | after such a run a thread is on its ready queue exactly if it is READY, RUNNING or a ZOMBIE still on a core |
| `SchedTidy.BlockCutsOff` | src/kernel/sync.c:318-330 | everybody queued behind a blocking caller is off its queue, and cut off for good unless a core is still on it |
| `SchedTidy.CutOffForGood` | src/kernel/sched.c:236-260 | a READY thread on no queue and no core stays so, its TCB unchanged, over every legal run that does not kill it: no wake-up reaches it and no switch picks it |
| `SchedRuns.BetterPriorityIsSafe` | src/kernel/sched.c:394-395 | a caller above the lowest priority never has an idle thread behind it |
| `SchedRuns.BootIsSound` | src/kernel/sched.c:394-395 | two pinned idle threads, one current on each core, satisfy the invariant |
| `SchedHazard.FreedWhileListed` | src/kernel/sched.c:425-464 | from the start, seven ordinary steps of which only one is unguarded lead to a switch that frees a thread still on a waiter list: a lowest-priority thread blocks ahead of an idle thread and is killed before its core switches |
| `SchedHazard.EveIsReached` | src/kernel/sched.c:397-538 | the first four of these steps, from both cores idling to the state in which the thread blocks |
| `SchedHazard.HazardRun` | src/kernel/sched.c:281-308 | the other three: the blocking call that drops the idle thread, the kill, and the switch that finds nobody |
| `SchedLives.KillByPlace` | src/kernel/sched.c:281-308 | what a kill does by where the victim is: caller, other core, waiter list, nowhere, already dead; nobody else is touched |
| `SchedLives.ZombieStays` | src/kernel/sched.c:233-308 | no step brings a ZOMBIE back; it stays one until the step that frees it |
| `SchedLives.KilledNeverRunsAgain` | src/kernel/sched.c:262-308 | over every legal run a killed incarnation stays a ZOMBIE until freed and its ID belongs to no live thread afterwards |
| `SchedLives.PendingKillTakesEffect` | src/kernel/sched.c:425-464 | a thread killed from the other core is reaped at its next switch, or handed to its primitive if it had just blocked |
| `SchedLives.SleepLeavesQueue` | src/kernel/sched.c:313-330 | sleeping takes exactly the caller off the queues |
| `SchedLives.CreateStartsReady` | src/kernel/task.c:139-247 | a new thread gets an unused slot of the 16, a fresh ID and no affinity, and is READY at the tail of the queue of its priority, the last one for 8 and more; or nothing changes |
| `SchedLives.OwnCalls` | src/kernel/task.c:252-265 | a thread that ends itself becomes a ZOMBIE, one that chooses a core gets that affinity, and nothing else changes |
| `SchedLives.CallsAreOpen` | src/kernel/sched.c:222-591 | the runs leave nothing out: a RUNNING thread that is not idle can make every call at any time, and each sleeper can be woken, each waiter unblocked, each doomed thread freed and each core switched |
| `SchedInv.BlockEffect` | src/kernel/sync.c:391-392 | what the composed blocking path does to queue, waiter list, state and event pool |
| `SchedInv.AllocCannotFail` | src/kernel/sync.c:549-588 | event_waiter_alloc always finds a slot for a thread that is on no waiter list, and that thread has none yet |
| `SchedInv.BlockKeepsInv` | src/kernel/sync.c:377-416 | blocking keeps the invariant |
| `SchedInv.UnblockKeepsInv` | src/kernel/sched.c:236-260 | waking, or handing a ZOMBIE over to be freed, keeps the invariant |
| `SchedInv.KillKeepsInv` | src/kernel/sched.c:281-308 | every branch of a kill keeps the invariant |
| `SchedInv.SwitchKeepsInv` | src/kernel/sched.c:397-538 | a switch keeps the invariant |
| `SchedInv.SwitchFinds` | src/kernel/sched.c:514-520 | the selection never comes back empty: the core's idle thread is always eligible |
| `SchedInv.SelectSpec` | src/kernel/sched.c:470-512 | the selection loop returns the first eligible thread of the best queue that has one |
| `SchedInv.CreateKeepsInv` | src/kernel/task.c:139-247 | creating a thread keeps the invariant |
| `SchedInv.FreeKeepsInv` | src/kernel/task.c:402-442 | freeing a doomed thread keeps the invariant |
| `SchedInv.WakeKeepsInv` | src/kernel/sched.c:578-590 | waking a sleeper keeps the invariant |
| `SchedInv.SleepKeepsInv` | src/kernel/sched.c:313-330 | sleeping keeps the invariant |
| `SchedInv.ExitKeepsInv` | src/kernel/task.c:252-265 | a thread ending itself keeps the invariant |
| `SchedSpec.PickIn` | src/kernel/sched.c:494-511 | the scan of one queue returns its first eligible member, or NULL when it has none |
| `SchedSpec.Rotate` | src/kernel/sched.c:475-492 | rotation permutes a queue |
| `Links.ChainIsAcyclic` | src/kernel/sched.c:166-170 | a list spelled out by next cells visits no thread twice |
| `Links.ChainIsUnique` | src/kernel/sched.c:166-170 | the cells determine the list |
| `Links.ChainCut` | src/kernel/sync.c:318-330 | storing NULL in a member's cell drops everything behind it |
| `Links.AppendTail` | src/kernel/sched.c:148-171 | the tail walk appends one thread and writes only in its own list |
| `Links.Unlink` | src/kernel/sched.c:173-200 | the removal walk takes one thread out and writes only in its own list |
| `Links.Bypass` | src/kernel/sync.c:633-641 | splicing one position out of a list |
| `Links.Dequeue` | src/kernel/sync.c:337-346 | taking the head off a list |
| `Kernel.Scheduler.constructor` | src/kernel/sched.c:394-395 | heads and links that spell out the start: both cores on their idle threads, which satisfies the invariant |
| `Kernel.Scheduler.AddThreadRaw` | src/kernel/sched.c:148-171 | appends a thread to the ready queue that its priority names, queue 7 from 7 on; all other lists are intact |
| `Kernel.Scheduler.RemoveThreadRaw` | src/kernel/sched.c:173-200 | takes a thread off its ready queue if it is there |
| `Kernel.Scheduler.Block` | src/kernel/sched.c:222-231 | BLOCKED and off its ready queue, also while its link already ends a waiter list |
| `Kernel.Scheduler.Unblock` | src/kernel/sched.c:236-260 | READY at the tail of its queue, or freed when it was killed while it waited |
| `Kernel.Scheduler.Kill` | src/kernel/sched.c:281-308 | implements the kill step; true exactly when the caller must free the thread |
| `Kernel.Scheduler.Sleep` | src/kernel/sched.c:319-327 | implements the sleep step |
| `Kernel.Scheduler.WakeSleepers` | src/kernel/sched.c:573-591 | implements the wake loop as a sequence of wake steps |
| `Kernel.Scheduler.NextThread` | src/kernel/sched.c:397-538 | implements the switch step and returns the thread now current |
| `Kernel.Scheduler.MarkOutgoing` | src/kernel/sched.c:425-464 | consumes a pending kill, turns RUNNING into READY and tells whether to reap |
| `Kernel.Scheduler.SelectThread` | src/kernel/sched.c:466-512 | implements the selection loop with its rotation |
| `Kernel.Scheduler.RotateQueue` | src/kernel/sched.c:475-492 | moves the head of a queue to its tail by relinking |
| `Kernel.Scheduler.WaiterEnqueue` | src/kernel/sync.c:318-330 | appends to a waiter list and, through the shared link, ends the ready queue there |
| `Kernel.Scheduler.WaiterDequeue` | src/kernel/sync.c:337-346 | takes the first waiter |
| `Kernel.Scheduler.WakeOne` | src/kernel/sync.c:353-358 | passes the wake-up over dead waiters, freeing them, to the first live one |
| `Kernel.Scheduler.AllocWaiter` | src/kernel/sync.c:560-575 | takes the first vacant pool slot; NULL exactly when there is none |
| `Kernel.Scheduler.FreeWaiter` | src/kernel/sync.c:578-588 | vacates the slot of a thread |
| `Kernel.Scheduler.BlockCurrent` | src/kernel/sync.c:674-678 | the locked section in which a primitive blocks its caller |
| `Kernel.Scheduler.SetFlags` | src/kernel/sync.c:597-647 | the list walk that wakes satisfied waiters while unlinking them |
| `Kernel.Scheduler.CreateThread` | src/kernel/task.c:139-247 | implements the create step; NULL exactly when slots or memory are exhausted |
| `Kernel.InvGivesLists` | src/kernel/sched.c:148-200 | in every state of a run the lists are disjoint, as the methods above require |
| `Wakeups.WakeLoopWakesDue` | src/kernel/sched.c:573-591 | the tick makes exactly the expired sleepers READY and queued and changes nothing else |
| `Wakeups.WakeLoopKeepsInv` | src/kernel/sched.c:573-591 | and keeps the invariant |
| `Wakeups.WakeOneSpec` | src/kernel/sync.c:348-358 | wake_one frees the ZOMBIEs in front of the first live waiter, in order and each logged, makes that waiter READY at the tail of its queue, keeps the rest listed in order, and touches nobody else |
| `Wakeups.WakeOneByPlace` | src/kernel/sync.c:348-358 | by position: with i dead waiters in front these are freed in order, the next one is READY at the tail of a ready queue, and the list goes on behind it |
| `Wakeups.SetFlagsList` | src/kernel/sync.c:597-647 | event_flags_set takes exactly the satisfied waiters off the list; the others keep their order |
| `Wakeups.SetFlagsTakes` | src/kernel/sync.c:597-647 | slot by slot, on the bits: the thread of an event-pool slot leaves the list exactly if all, or any, of the flags in its mask are set, and is then on a ready queue unless it was dead |
| `FlagBits.NoneMissing` | src/kernel/sync.c:628 | the test for all flags holds exactly if no flag of the mask is clear |
| `FlagBits.AllSet` | src/kernel/sync.c:628 | which is the case exactly if every single flag of the mask is set |
| `FlagBits.AnySet` | src/kernel/sync.c:628 | the test for any flag holds exactly if some single flag is in both |
| `Wakeups.SetFlagsOrder` | src/kernel/sync.c:597-647 | the live ones among them join each ready queue's tail in list order |
| `Wakeups.SetFlagsKeepsInv` | src/kernel/sync.c:597-647 | and the invariant is kept |
| `Wakeups.SetLeavesNoneSatisfied` | src/kernel/sync.c:597-647 | afterwards no listed waiter has its condition met |
| `SyncRuns.NoWakeupIsLost` | src/kernel/sync.c:348-358 | over every run, kills included as long as they do not hit a thread that has just been given a wake-up: while anybody waits, available units never exceed the threads woken but not yet back, and each of those is READY or RUNNING, not marked for death and off the list |
| `SyncRuns.WokenAreQueued` | src/kernel/sync.c:348-358 | over such a run all runnable threads stay queued exactly when whoever blocks, here or elsewhere, is the last of its ready queue, and then every woken thread is on its queue |
| `SyncRuns.UnitKeepsFullIff` | src/kernel/sync.c:377-498 | the single step at which a woken thread can drop off its queue: a blocking call ahead of another thread, and no other |
| `SyncRuns.UnitStepKeeps` | src/kernel/sync.c:377-498 | each take, join, give or unrelated step, kills among them, keeps that |
| `SyncRuns.UnitEffect` | src/kernel/sync.c:377-498 | what a step of such a run does to units, list and TCBs: a unit less, the caller BLOCKED at the tail of the list, or a unit more and the first live waiter READY |
| `SyncRuns.UnitsStart` | src/kernel/sync.c:461-466 | which can begin in any sound state with a new object of any count |
| `EventRuns.NobodyWaitsInVain` | src/kernel/sync.c:597-683 | over every run of one event object among everything else the kernel does, kills included: a listed waiter has its own pool slot recording exactly what it asked for, and of that, on the bits, not all or not any flag is set |
| `EventRuns.OthersKeepNone` | src/kernel/sync.c:549-588 | a switch, kill, create, free, sleep, wake, or a blocking or waking on another list makes no listed waiter's condition true |
| `EventRuns.EventStepKeeps` | src/kernel/sync.c:597-683 | each set, clear, wait or unrelated step keeps that |
| `EventRuns.EventStarts` | src/kernel/sync.c:590-595 | such a run can begin in any sound state with a new object of any flags |
| `Sync.GiveKeeps` | src/kernel/sync.c:348-358 | giving a unit back and passing it on past dead waiters keeps the balance, kills or not |
| `Sync.OthersKeep` | src/kernel/sync.c:348-358 | steps on other lists do not disturb it |
| `Sync.Mutex.LockRound` | src/kernel/sync.c:377-396 | one round: owner set exactly when the mutex was free, else the caller is blocked; no wake-up lost |
| `Sync.Mutex.Unlock` | src/kernel/sync.c:398-416 | free again and passed on; no wake-up lost |
| `Sync.Semaphore.WaitRound` | src/kernel/sync.c:468-486 | one round: a unit taken exactly when the count was positive |
| `Sync.Semaphore.Signal` | src/kernel/sync.c:488-498 | one unit more, passed on |
| `Sync.EventFlags.Set` | src/kernel/sync.c:597-647 | flags are added, the waiters whose slot asks for what is now set are woken and no others, and none is left that could be; what it relies on holds after every run (`EventRuns.NobodyWaitsInVain`) |
| `Sync.EventFlags.Clear` | src/kernel/sync.c:649-654 | clearing flags satisfies nobody |
| `Sync.EventFlags.WaitRound` | src/kernel/sync.c:656-683 | one round: done exactly when all, or any, of the bits of the mask are set, else blocks with the mask on record |
| `Sync.BlockedIsUnsatisfied` | src/kernel/sync.c:674-678 | the ignored result of event_waiter_alloc is safe: the mask is recorded and the other masks stay |
| `Sync.RingPush` | src/kernel/sync.c:745-749 | filling the tail slot keeps the ring equal to the sent but unreceived messages |
| `Sync.RingPop` | src/kernel/sync.c:772-776 | the head slot is the oldest unreceived message |
| `Sync.MQueue.constructor` | src/kernel/sync.c:728-738 | message size clamped to 64, ring empty |
| `Sync.MQueue.SendRound` | src/kernel/sync.c:740-765 | one round: sent exactly when fewer than 16 messages are queued, else blocked as a sender; FIFO ring and both wake-up balances kept |
| `Sync.MQueue.RecvRound` | src/kernel/sync.c:767-792 | one round: the oldest message sent and not yet received, or blocked as a receiver |
| `Sync.MQueue.TrySend` | src/kernel/sync.c:794-811 | false exactly with 16 messages queued, and the queue is left alone |
| `Sync.MQueue.TryRecv` | src/kernel/sync.c:813-830 | the oldest message; false exactly on an empty queue, which is left alone |
| `HeapBlocks.AllocateKeeps` | src/kernel/mem.c:92-117 | first fit with splitting keeps the heap tiled in 8-byte steps with no two adjacent free blocks; how much it takes is in `HeapBlocks.AllocateTakes` |
| `HeapBlocks.ReleaseKeeps` | src/kernel/mem.c:138-159 | freeing with coalescing both ways keeps it too |
| `HeapBlocks.AllocateTakes` | src/kernel/mem.c:100-117 | kmalloc of n bytes raises the bytes in use by at least n + 16 and less than n + 64: what is left of the block stays free when it is 48 bytes or more |
| `HeapBlocks.ReleaseReturns` | src/kernel/mem.c:138-159 | kfree lowers them by exactly the block and its header, however much is merged |
| `HeapBlocks.SecondRequest` | src/kernel/mem.c:92-117 | on the initial heap a second request is met exactly when it fits into what the first one has left |
| `HeapBlocks.AllocateUses` | src/kernel/mem.c:92-117 | allocation adds one used block and moves no other |
| `HeapBlocks.ReleaseUses` | src/kernel/mem.c:138-159 | freeing removes exactly one used block |
| `HeapBlocks.FailsIffTooLarge` | src/kernel/mem.c:92-117 | no block fits exactly when the rounded size exceeds the largest free block |
| `HeapBlocks.TotalsAddUp` | src/kernel/mem.c:167-193 | used and free bytes, headers included, always make up the whole heap |
| `HeapBlocks.AllFreeIsInitial` | src/kernel/mem.c:138-159 | a coalesced heap without used blocks is the single initial block |
| `HeapBlocks.Align8` | src/kernel/mem.c:43 | the rounded size covers the request exactly when 32-bit rounding does not wrap |
| `Heap.KHeap.constructor` | src/kernel/mem.c:65-75 | one free block, written as header bytes |
| `Heap.KHeap.Kmalloc` | src/kernel/mem.c:80-121 | NULL exactly when too large; else an 8-aligned block of its own of less than 48 bytes more than the rounded request, the bytes in use rising by less than the rounded request plus 64, header bytes rewritten to match, and no byte of any live payload changed |
| `Heap.KHeap.Kfree` | src/kernel/mem.c:126-162 | the block is released and coalesced and its bytes are free again, no byte of another live payload changes, and with nothing left live the heap is the initial block |
| `Heap.KHeap.Stats` | src/kernel/mem.c:167-193 | used, free and largest as defined on the blocks; used + free is the heap size |
| `Heap.LivePayloadsDisjoint` | src/kernel/mem.c:22-41 | payloads of live allocations share no byte and lie inside the heap |
| `Heap.SplitRep` | src/kernel/mem.c:100-110 | the five stores of a split, the new header inside the old payload, spell out the split block list |
| `Heap.MergeRep` | src/kernel/mem.c:141-145 | the two stores of a merge spell out the merged list |
| `Heap.NothingLiveIsInitial` | src/kernel/mem.c:138-159 | once everything has been freed, in any order, the initial block is back |
| `Bytes.BytesOf` | src/kernel/mem.c:47-51 | the four little-endian bytes of a 32-bit field read back as its value |
| `FsRuns.WrittenBytesReadBack` | src/kernel/fs.c:435-559 | for the names the callers pass, each with or without a leading slash: bytes written in any chunking to a truncating or appending descriptor and closed read back in any chunking as the kept prefix plus the bytes cut at one sector, also after a remount when the close committed anything |
| `FsRuns.CommitSurvivesRemount` | src/kernel/fs.c:274-295 | right after a close that committed, fs_init brings back the same names and bytes |
| `FsRuns.RunKeepsOthers` | src/kernel/fs.c:332-608 | no sequence of calls about other names, slashes apart, changes what a name holds |
| `FsNames.SameFileIff` | src/kernel/fs.c:338-372 | two opens reach the same file exactly if their names, of up to 15 characters, are the same but for one leading slash |
| `FsNames.SlashIsOptional` | src/kernel/fs.c:340-342 | fs_open and fs_delete do the same with and without a leading slash |
| `FsNames.OpenCallSucceedsIff` | src/kernel/fs.c:332-424 | on the name passed, the bits of the mode and the tables: when fs_open succeeds |
| `FsNames.OpenCallReaches` | src/kernel/fs.c:332-424 | the descriptor it returns was free and is on the file of that name, or on a new empty one whose name is cut to 15 characters; bit 3 empties the file, bit 4 starts at its end, bit 1 takes the one write buffer |
| `FsNames.DeleteCallFrees` | src/kernel/fs.c:564-608 | fs_delete frees one entry of that name and no other |
| `FsNames.WriteResult` | src/kernel/fs.c:476-512 | what fs_write returns: 0 for no data, -1 without bit 1 or room, else as much as fits below 4096 |
| `FsSpec.StripDenotes` | src/kernel/fs.c:340-342 | the name looked up is the one passed, less one leading slash |
| `FsRuns.StepKeepsPending` | src/kernel/fs.c:208-218 | creating, deleting, opening, reading and closing other files leave the open writer's unsaved data alone |
| `FsRuns.StepKeepsSound` | src/kernel/fs.c:332-608 | every call keeps the invariant, among it: scratch_owner names a file exactly when one write-mode descriptor exists, and it is that one's |
| `FsRemounts.FlushShowsSizeIff` | src/kernel/fs.c:208-218 | creating or deleting another file while one is being written: a remount right after reads under the writer's name what a remount right before would have read, its last committed bytes, if and only if the writer's size in RAM is the size saved before |
| `FsRemounts.UnsavedSizeShows` | src/kernel/fs.c:359-372 | the failing case from a fresh format: an unclosed file of which nothing was committed is read back as that many bytes of erased flash once another file has been created |
| `FsRemounts.RunKeepsNames` | src/kernel/fs.c:332-608 | after any sequence of calls the directory on flash differs from the one in RAM in sizes only |
| `FsRuns.DeletedIsMissingIff` | src/kernel/fs.c:564-608 | after any sequence of calls from a format, deleting a name makes it missing exactly if it is not stored twice; it is not while no call creates a name in use, and no call with a name of up to 15 characters does |
| `FsRuns.RunKeepsUniqueIff` | src/kernel/fs.c:365-366 | over a whole run names stay distinct exactly when no call creates a file whose stored, possibly cut, name is in use |
| `FsRuns.InitReloads` | src/kernel/fs.c:274-289 | mounting a saved directory with no writer open restores files and view |
| `FsRuns.WriteAllAppends` | src/kernel/fs.c:476-512 | any chunking of writes at the end appends the concatenation, cut at one sector |
| `FsRuns.ReadAllReturns` | src/kernel/fs.c:435-467 | any chunking of reads returns the bytes from the position on |
| `FsProps.FlushSaves` | src/kernel/fs.c:212-218 | the superblock image, programmed under NOR rules, mounts to the directory it was taken from |
| `FsProps.FlushLayout` | src/kernel/fs.c:212-218 | byte by byte where superblock_flush puts magic number, version, count and each field of each entry |
| `FsSpec.DirectoryFitsIff` | src/kernel/fs.c:92-96 | the superblock fits its sector exactly for up to 127 files |
| `FsSpec.ProgramClears` | src/kernel/fs.c:202-206 | a bit is set after programming exactly if it was set before and in the data |
| `FsProps.EntryRoundTrip` | src/kernel/fs.c:284-287 | a 32-byte directory entry decodes to what was encoded |
| `FsProps.FilesRoundTrip` | src/kernel/fs.c:284-287 | so does the whole table |
| `FsSpec.ProgramBlank` | src/kernel/fs.c:202-206 | programming ANDs, so on an erased sector it stores the data |
| `FsViews.CloseKeepsView` | src/kernel/fs.c:522-559 | committing or dropping the buffer changes no name's bytes |
| `FsViews.WriteContent` | src/kernel/fs.c:476-512 | a write puts its bytes at the position of the writer's file, cut at 4096, and changes no other file |
| `FsViews.OpenOwnName` | src/kernel/fs.c:332-424 | what fs_open does to its own name, successful or not |
| `FsViews.OpenSucceedsIff` | src/kernel/fs.c:332-424 | exactly when fs_open succeeds |
| `FsViews.OpenDescriptor` | src/kernel/fs.c:408-419 | the descriptor: first free slot, on the name's file, at its start or end |
| `FsViews.OpenKeepsOthers` | src/kernel/fs.c:332-424 | no other name changes |
| `FsViews.FailedOpenIff` | src/kernel/fs.c:400-406 | a failed open changes its name exactly when it created the file first, or truncated a non-empty one before finding the descriptor table full |
| `FsViews.DeleteKeepsOthers` | src/kernel/fs.c:564-608 | deleting changes no other name |
| `FsViews.DeleteRemovesIff` | src/kernel/fs.c:564-608 | and its own is missing afterwards exactly if one file only had it |
| `FsViews.CreateKeepsUniqueIff` | src/kernel/fs.c:365-366 | names stay distinct exactly when the stored, possibly cut, name is not in use |
| `FsSteps.OpenKeepsSound` | src/kernel/fs.c:332-424 | fs_open keeps the invariant |
| `FsSteps.WriteKeepsSound` | src/kernel/fs.c:476-512 | fs_write keeps the invariant |
| `FsSteps.CloseKeepsSound` | src/kernel/fs.c:522-559 | fs_close keeps it and ends with no owner exactly if the writer closed |
| `FsSteps.DeleteKeepsSound` | src/kernel/fs.c:564-608 | fs_delete keeps it |
| `FsSteps.FormatKeepsSound` | src/kernel/fs.c:300-327 | fs_format establishes it with every name missing |
| `Fs.FileSystem.constructor` | src/kernel/fs.c:274-282 | zeroed tables in front of any flash content satisfy the invariant |
| `Fs.FileSystem.ProgramSector` | src/kernel/fs.c:202-206 | only ever called on a sector erased since it was last programmed |
| `Fs.FileSystem.SuperblockFlush` | src/kernel/fs.c:212-218 | erase, then program; the write buffer is untouched |
| `Fs.FileSystem.FindFile` | src/kernel/fs.c:228-237 | first used slot with that name |
| `Fs.FileSystem.Open` | src/kernel/fs.c:332-424 | implements the open function for the name passed, less one leading slash, with its early exits |
| `Fs.FileSystem.Read` | src/kernel/fs.c:435-467 | implements the read function; -1 for a descriptor that is not open |
| `Fs.FileSystem.Write` | src/kernel/fs.c:476-512 | implements the write function; -1 for a read-only descriptor or a full file |
| `Fs.FileSystem.Close` | src/kernel/fs.c:522-559 | implements the close function |
| `Fs.FileSystem.Delete` | src/kernel/fs.c:564-608 | implements the delete function for the name passed, less one leading slash; -1 for a missing name |
| `Fs.FileSystem.Format` | src/kernel/fs.c:300-327 | implements the format function |
| `Fs.FileSystem.Init` | src/kernel/fs.c:274-295 | implements the mount function for any flash content |
| `ScanMachine.NeverAsleepOnNews` | src/kernel/wifi.c:498-563 | for every interleaving: with g_cont_lock free, STOP is set exactly when scanning is off, and a fresh window means READY is set or about to be, so a consumer sleeps only while there is nothing to hear |
| `ScanMachine.WindowsAreNumbered` | src/kernel/wifi.c:541-551 | within a session the roles stay a permutation, the k-th window taken is number k + dropped, and the numbers rise strictly |
| `ScanMachine.HeldListUntouched` | src/kernel/wifi.c:511-514 | between two takes nothing writes the list the consumer holds |
| `ScanMachine.ReadyListUntouched` | src/kernel/wifi.c:541-551 | a take hands over the last published window unchanged |
| `ScanMachine.EndWindowHandsOver` | src/kernel/wifi.c:544-548 | publishing stamps the filled list, empties the next one and leaves the held one alone |
| `ScanMachine.StepKeepsInv` | src/kernel/wifi.c:403-563 | every step of callback, poll thread, consumers and control calls keeps the invariant |
| `ScanMachine.ListHoldsFirstHeard` | src/kernel/wifi.c:157-210 | whatever the radio reports, a list holds each address heard once, in the order first heard, up to 16 of them |
| `ScanMachine.ListShowsLatest` | src/kernel/wifi.c:172-184 | and each entry has the channel of the first report of its address and the signal of the latest one that had a reading |
| `ScanMachine.WindowShowsWhatWasHeard` | src/kernel/wifi.c:527-563 | whatever the interleaving, a window published holds exactly what was heard since the one before: the first 16 addresses, in the order first heard, each with its latest reading |
| `Scan.ScanBuffer.Init` | src/kernel/scanbuf.c:17-25 | three distinct roles |
| `Scan.ScanBuffer.PublishWindow` | src/kernel/scanbuf.c:27-36 | fill and ready change places, an untaken window is counted as dropped |
| `Scan.ScanBuffer.TakeWindow` | src/kernel/scanbuf.c:38-47 | ready and held change places exactly when there is something new |
| `Scan.WifiScan.ResultCb` | src/kernel/wifi.c:157-210 | refreshes a known address or fills a new slot: of the fill list in a continuous pass, of the one-shot list otherwise |
| `Scan.WifiScan.ContStopLocked` | src/kernel/wifi.c:403-412 | clears g_cont, then sets STOP |
| `Scan.WifiScan.ScanStop` | src/kernel/wifi.c:489-494 | under the lock, g_cont is cleared before STOP is set, and the lock is free again |
| `Scan.WifiScan.ScanOnce` | src/kernel/wifi.c:218-235 | a one-shot scan is refused while the radio is busy; otherwise it empties its list and takes the radio over |
| `Scan.WifiScan.ScanStart` | src/kernel/wifi.c:427-487 | the four results, and the flags and lists each leaves |
| `Scan.WifiScan.ScanWaitRound` | src/kernel/wifi.c:502-522 | clear, then take, under the lock; the window it returns is numbered correctly |
| `Scan.WifiScan.ContPoll` | src/kernel/wifi.c:527-563 | publishes under the lock and sets READY after letting it go |
| `Line.LineSpec` | src/drivers/display.c:453-468 | for all integer end points: max(dx, dy in absolute value)+1 points, first to last end point, each within half a pixel of the ideal line |
| `Line.MoveKeepsTrack` | src/drivers/display.c:461-467 | each iteration advances along the longer side and keeps the distance bound, so the loop ends |
| `Line.HorizontalLine` | src/drivers/display.c:453-468 | a horizontal line is exactly the pixels between its ends |
| `Line.VerticalLine` | src/drivers/display.c:453-468 | so is a vertical one |
| `Display.Display.DrawLine` | src/drivers/display.c:453-468 | plots exactly those points, clipped to the screen |
| `Display.Display.Reopen` | src/drivers/display.c:564-565 | opening again only moves the cursor to the top |
| `Display.Display.DrawPixel` | src/drivers/display.c:444-451 | plots a pixel on the screen and marks its row |
| `Display.Display.FillRect` | src/drivers/display.c:470-477 | plots every pixel inside and no other |
| `Display.Display.OutlineRect` | src/drivers/display.c:478-483 | plots the border and nothing else, whichever way the corners lie |
| `Display.PlotAllPixel` | src/drivers/display.c:444-451 | drawing changes exactly the pixels drawn |
| `Display.PaintedPixel` | src/drivers/display.c:542-566 | of several dots on one pixel the last one shows |
| `Display.Display.Write` | src/drivers/display.c:577-595 | -1 for an empty buffer; otherwise stores bytes from the cursor up to the end of the screen and marks the rows they touch |
| `Display.Display.Clear` | src/drivers/display.c:602-606 | background everywhere, all rows dirty |
| `Display.Display.Flush` | src/drivers/display.c:353-438 | sends only dirty rows: the panel outside them is untouched, and afterwards the whole panel shows the framebuffer |
| `Display.Display.constructor` | src/drivers/display.c:542-566 | the framebuffer is the blue screen with the splash pixels drawn on it, and the panel shows it |
| `Display.SentRow` | src/drivers/display.c:418-432 | a row sent is shown and the rows shown before still are |
| `Display.WriteKeepsClean` | src/drivers/display.c:589-593 | marking the first and last row of a write covers every row it touched |
| `Display.ExpandIsFaithful` | src/drivers/display.c:409-427 | RGB332 to RGB565 maps different colours to different colours, black to black and white to white |
| `Display.ExpandScales` | src/drivers/display.c:409-427 | red, green and blue each go to the nearest level of the same channel |
| `Display.JoinSplit` | src/drivers/display.c:427-429 | the two bytes sent for a pixel are that pixel |
| `BtScan.ScanFillsOnce` | src/kernel/bluetooth.c:391-568 | over every event sequence with arbitrary advertising data the list only grows, holds one slot per address, and every optional field is filled at most once |
| `BtScan.ExtractFillsOnce` | src/kernel/bluetooth.c:300-370 | merging arbitrary advertising data into a published slot keeps that rule |
| `BtFields.CollectsAll` | src/kernel/bluetooth.c:300-370 | a new slot, by position in the report: service UUID, 32-bit UUID and name from the first structure that gives one, flags, power and appearance from the last of their type, service data from the last with the UUID kept, manufacturer data from the last, or in a scan response the first |
| `BtFields.FillsAll` | src/kernel/bluetooth.c:300-370 | a slot readers see: a known field stays, an unknown one comes from the first structure that fills it |
| `BtFields.HandleShows` | src/kernel/bluetooth.c:391-568 | every report, with arbitrary advertising data, in every list: which slot it updates or opens, when it is dropped, and where each field of that slot then comes from |
| `BtScan.ChangesAtMostOnce` | src/apps/scantest.c:163-191 | two snapshots that differ in a field leave it no further change |
| `BtScan.EventContinues` | src/kernel/bluetooth.c:391-568 | one event keeps the rule for every slot |
| `BtScan.EventPassesIff` | src/apps/scantest.c:151-161 | an event keeps every visible entry well formed exactly when it opens no slot for address zero |
| `Bt.SetNameBytes` | src/kernel/bluetooth.c:239-247 | a reader without a lock sees an empty name or the whole new one at every byte written |
| `Bt.StoreServiceData` | src/kernel/bluetooth.c:328-339 | store by store: the bytes, the length, then the UUID; a reader that finds a UUID finds the whole data, and data of a slot being watched is never overwritten |
| `Bt.StoreManufacturerData` | src/kernel/bluetooth.c:358-366 | the same for manufacturer data and its company ID |
| `Bt.DataField.Announce` | src/kernel/bluetooth.c:279-287 | set_bytes and the ID after it: until the last store the ID is the old one |
| `Bt.ExtractBleAdvData` | src/kernel/bluetooth.c:300-370 | the loop over advertising structures; each field ends up as the structures' positions demand (`BtFields.CollectsAll`, `BtFields.FillsAll`) |
| `Bt.ScanResults.PacketHandler` | src/kernel/bluetooth.c:373-569 | implements the events on the slots in place, so that each field comes from where `BtFields.HandleShows` says, and continues the list a reader saw |
| `Bt.ScanResults.FindSlotByAddr` | src/kernel/bluetooth.c:185-195 | the first slot of an address, or none |
| `TaskRuns.StacksGoBackOnce` | src/kernel/task.c:402-442 | over every run of create, condemn and free from task_init: the stacks taken from the heap are exactly those of the used threads, and every thread ID ever given out either still has its stack or has given it back, exactly once |
| `TaskRuns.ProcessLivesWithItsThreads` | src/kernel/task.c:432-441 | after every such run a live process that has had a thread still has one |
| `TaskRuns.RunStaysBounded` | src/kernel/task.c:238-241 | and the array bounds every call relies on hold |
| `TaskRuns.StepKeepsLedger` | src/kernel/task.c:139-500 | each single call keeps pools, stacks and history in step |
| `TaskSpec.CreateKeepsInv` | src/kernel/task.c:139-247 | creating a thread keeps: live PIDs distinct, every used TCB in exactly one live process's compacted prefix, stacks distinct live heap blocks |
| `TaskSpec.CreateProcessKeepsInv` | src/kernel/task.c:270-323 | so does creating a process |
| `TaskSpec.FreeKeepsInv` | src/kernel/task.c:402-442 | so does freeing a thread |
| `TaskSpec.ProcessGoesWithLastThread` | src/kernel/task.c:438-441 | a process survives the free of a thread exactly when it has another one |
| `TaskSpec.LinkHasRoom` | src/kernel/task.c:238-241 | the bound test on thread_count never drops a link |
| `TaskSpec.UnlinkedMembers` | src/kernel/task.c:414-424 | compaction removes one thread and leaves no gap |
| `TaskPool.Pool.CreateProcess` | src/kernel/task.c:270-323 | refused exactly for PID 0, a live PID, or eight processes |
| `TaskPool.Pool.AllocPid` | src/kernel/task.c:328-346 | a PID of the range that is not live, 0 exactly when all are |
| `TaskPool.Pool.CreateThread` | src/kernel/task.c:139-247 | takes a stack from the heap and links the thread into its process, or leaves everything as it was; NULL exactly when all slots are used or kmalloc finds no block large enough |
| `TaskPool.Pool.FreeThread` | src/kernel/task.c:402-442 | unlinks the thread and gives back exactly its own stack |
| `TaskPool.Pool.Unlink` | src/kernel/task.c:414-424 | the compaction loop |
| `TaskJoint.PoolsFollow` | src/kernel/task.c:402-442 | along every legal run of the scheduler, each thread it creates and each it frees is a possible step of the pools: no slot is freed that is not in use; both agree on who uses which slot, and the freed IDs are, in order, those whose stacks went back |
| `TaskJoint.FreedThreadsGaveBack` | src/kernel/task.c:402-442 | from the start: exactly the IDs that were given out and are not live any more have been freed, once each, and exactly the stacks of the threads in use are taken from the heap |
| `TaskJoint.PoolsCanFollow` | src/kernel/task.c:402-442 | a single scheduler step never asks the pools for what they cannot do |
| `TaskJoint.JointStepKeeps` | src/kernel/task.c:139-247 | and keeps scheduler and pools in agreement |
| `TaskKills.KillProcess` | src/kernel/task.c:484-500 | the snapshot loop on scheduler and pools together: every thread goes through sched_kill, is freed when handed back, and the two stay in agreement about who is in use |
| `TaskKills.KillEachKeeps` | src/kernel/task.c:467-472 | killing a process frees at once exactly those of its threads that were READY or SLEEPING and on no core, marks all the others, leaves one that another killer has taken alone, touches nobody else and keeps the invariant |
| `TaskKills.KillThread` | src/kernel/task.c:467-472 | task_kill_thread: the TCB, its stack and its place in the process go exactly when sched_kill hands the thread back |
| `TaskPool.ShiftDown` | src/kernel/task.c:418-421 | the inner loop of the compaction |

## Left out

- The gap between `waiter_enqueue` and `sched_block` as seen from the other core: a primitive's
  section with its nested scheduler lock is one step, so a thread of the other core that walks a
  ready queue in between is not modelled.
- The lock-free parts of `task_create_thread` (slot search) and `thread_exit` (state write), and the
  reads of the core number and of the current thread just before the lock is taken: taken as atomic
  with the section that follows, without migration in between.
- Start of the second core: runs begin with both cores scheduling on their idle threads, which never
  block, sleep or get killed.
- Context switching in assembly, stack frames, stack canary, time slices, trace, and lock debugging.
- Hardware spinlocks, interrupt masking and the assignment of primitives to shared locks.
- Round-robin fairness between the cores: only the choice by priority and queue order is claimed.
- Wrap-around of the 32-bit counters for thread IDs, window numbers, drops and semaphore counts.
- SchedRuns.FreedOnceAndUnreferenced: blocking calls ahead of a queued idle thread are excluded; `SchedGuard.LegalIffSafe` shows that nothing weaker will do.
- SchedRuns.FreedIsNowhere: blocking calls ahead of a queued idle thread are excluded; `SchedGuard.LegalIffSafe` shows that nothing weaker will do.
- SchedRuns.ZombieHasOneReaper: blocking calls ahead of a queued idle thread are excluded; `SchedGuard.LegalIffSafe` shows that nothing weaker will do.
- SchedRuns.RunKeepsInv: blocking calls ahead of a queued idle thread are excluded; `SchedGuard.LegalIffSafe` shows that nothing weaker will do.
- SchedRuns.StepKeepsInv: blocking calls ahead of a queued idle thread are excluded; `SchedGuard.LegalIffSafe` shows that nothing weaker will do.
- SchedRuns.CoresAndQueues: blocking calls ahead of a queued idle thread are excluded; `SchedGuard.LegalIffSafe` shows that nothing weaker will do.
- SchedInv.BlockKeepsInv: blocking calls ahead of a queued idle thread are excluded; `SchedGuard.LegalIffSafe` shows that nothing weaker will do.
- Sync.Mutex.LockRound: a round that blocks does not do so ahead of a queued idle thread; a round that does not block asks for nothing of the kind.
- Sync.Semaphore.WaitRound: a round that blocks does not do so ahead of a queued idle thread; a round that does not block asks for nothing of the kind.
- Sync.EventFlags.WaitRound: a round that blocks does not do so ahead of a queued idle thread; a round that does not block asks for nothing of the kind.
- Sync.MQueue.SendRound: a round that blocks does not do so ahead of a queued idle thread; a round that does not block asks for nothing of the kind.
- Sync.MQueue.RecvRound: a round that blocks does not do so ahead of a queued idle thread; a round that does not block asks for nothing of the kind.
- SchedLives.ZombieStays: a thread that has killed itself neither blocks nor sleeps before its next switch.  `sched_block` and `sched_sleep` would overwrite its state; the callers in `src/shell/shell.c` and `src/kernel/syscall.c` yield without calling a blocking primitive in between.
- SchedLives.KilledNeverRunsAgain: the same, and blocking calls ahead of a queued idle thread are excluded.
- SchedLives.CreateStartsReady: whether the heap has room for the stack is an input; the heap itself is in `TaskPool.Pool.CreateThread`.
- Kernel.Scheduler.CreateThread: the same.
- What a thread does in a primitive's retry loop when a switch has found nobody and resumed it still BLOCKED or dead: it tests again, and may block a second time; the step system lets it do nothing until it is woken.  No legal run gets there.
- SyncRuns.NoWakeupIsLost: a thread killed after it was woken takes its wake-up along, so such kills are excluded, as is waking a thread that is already marked for death; and a woken thread calls nothing else before it tests again.  Whether it is queued as well is in `SyncRuns.WokenAreQueued`.
- SyncRuns.WokenAreQueued: the same exclusions.
- SyncRuns.UnitKeepsFullIff: the same exclusions.
- SyncRuns.UnitStepKeeps: the same exclusions.
- SchedTidy.CutOffForGood: blocking calls ahead of a queued idle thread are excluded; `SchedGuard.LegalIffSafe` shows that nothing weaker will do.
- EventRuns.NobodyWaitsInVain: blocking calls ahead of a queued idle thread are excluded; `SchedGuard.LegalIffSafe` shows that nothing weaker will do.
- EventRuns.EventStepKeeps: blocking calls ahead of a queued idle thread are excluded; `SchedGuard.LegalIffSafe` shows that nothing weaker will do.
- TaskJoint.PoolsFollow: blocking calls ahead of a queued idle thread are excluded; `SchedGuard.LegalIffSafe` shows that nothing weaker will do.
- TaskJoint.FreedThreadsGaveBack: the same; the heap appears as the set of blocks that are stacks.
- Two or more event objects, mutexes or queues at once: each primitive is proved with its own lists, the others' steps being steps on other lists.
- Heap.KHeap.Kmalloc: the exact failure condition and a payload as large as the request are stated for sizes whose rounding to eight bytes does not wrap in 32 bits.
- Freeing an address that kmalloc did not return, or twice.
- Fs: failed flash calls, power loss in the middle of a call, `fs_list`, NULL arguments, and the pinning of flash calls to core 0.
- Fs.FileSystem.SuperblockFlush: the -1 of a failed flash call is left out.
- Fs.FileSystem.Close: flash calls do not fail here.
- Fs.FileSystem.Delete: flash calls do not fail here.
- FsRuns.WrittenBytesReadBack: after a remount only when the close committed something; a truncating open closed without a write does not save the new size.
- FsNames.SameFileIff: names of up to 15 characters; a longer one is cut when its file is created and not found again (`FsNames.OpenCallReaches`).
- A second descriptor reading a file while it is being written sees the committed sector; what it reads is modelled, but no promise is made about it.
- Fs.FileSystem.Read: the bytes go to an out-parameter in place of the caller's buffer.
- Firmware dwell times, `wifi_connect`, multicast, and the poll thread's early return while nothing is going on.
- Scan.WifiScan.ScanOnce: whether a scan is active and what the radio driver answers are inputs.
- Scan.WifiScan.ScanStart: what the radio driver and the thread pool answer are inputs.
- Scan.WifiScan.ContPoll: whether the window ends is an input; the pass flag and the clock it is computed from are not modelled.
- Continuous Bluetooth scanning with its name cache and name requests.
- Bt.ExtractBleAdvData: the advertising bytes arrive already split into structures, as the radio stack's iterator hands them over.
- Bt.ScanResults.PacketHandler: a slot is replaced as one value, and in continuous mode not at all.  The order of single stores is modelled field by field in `Bt.SetNameBytes`, `Bt.StoreServiceData` and `Bt.StoreManufacturerData`, which stand on their own.
- A consumer's wait itself (`event_flags_wait`) is part of `Sync`; in `ScanMachine` it is the condition under which a consumer sleeps.
- Fonts and text (any set of pixels), buttons, backlight, the SPI protocol and the panel's column window; integer overflow of coordinates.
- TaskKills.KillThread: the victim is in use and no idle thread, the caller is running or has killed itself, and no step of the other core falls between `sched_kill` and the free.
- TaskKills.KillProcess: the same, and another core freeing an entry of the snapshot in between is not modelled.
- TaskRuns.StacksGoBackOnce: that only used slots are freed is a condition of the step; along the runs of the scheduler it is proved, in `TaskJoint.PoolsFollow`.
- Shell, syscalls, VFS and devices, applications, LED, USB console.
