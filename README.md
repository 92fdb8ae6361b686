# xv6 threads: process/thread table, user threads and the random device

This project models three parts of a RISC-V xv6 teaching kernel that was
extended with kernel threads, together with its user-level thread library
and a `/dev/random` device. Each part is written in Dafny and proved.

- **The kernel process/thread table** (`proc.c`, `kthread.c`). The table has
  `NPROC` process slots. Each slot is UNUSED, USED or ZOMBIE and embeds `NKT`
  kernel-thread slots. A thread slot is UNUSED, USED, RUNNABLE, RUNNING,
  SLEEPING or ZOMBIE.
  - `Procs.Table` is a class over `procs: array<Proc>`, the pid counter
    `nextpid` and `initproc`. Each kernel routine is one of its methods.
  - The thread-slot routines of `kthread.c` are methods of module `KThreads`
    over the same array.
  - Each method states its whole result and new state. Most are proved to
    compute a function of module `ProcSpec` (the `kthread.c` methods,
    functions of `KThreads`); small ones such as `AllocPid`, `SetKilled`,
    `Killed` and `KThreadId` state their result outright.
  - The top-level operations, the methods that require `Valid()`, also keep
    the table invariant `TableInv`. The helper methods they call require
    only well-shaped slots; the `...Inv` lemmas about the functions those
    helpers compute carry the invariant across them. `TableInv` says:
    - an UNUSED slot has pid 0 and only UNUSED thread slots with tid 0; its
      killed flags may still be set, since `kill(0)` marks such a slot;
    - pids are unique and drawn from the counter;
    - tids within a process are unique and drawn from its counter;
    - every thread keeps the kernel stack `kthreadinit` gave it.
  - The lemmas of `ProcSpec` then state what each operation promises.
  - The running thread is an explicit parameter `cur`.
- **The user-level thread library** (`uthread.c`). `UThreads.UThreadLib` is
  a class over the `threads` array and the globals `curr_thread`,
  `next_thread_index` and `num_of_threads`. Its invariant ties
  `num_of_threads` to the number of non-FREE slots. While a thread runs, it
  is the only RUNNING slot.
- **The random device** (`random.c`). `lfsr_char` is a bit-vector function
  with its inverse. The device is a class holding the seed byte.

Allocations that live outside the core are parameters:
- the trapframe page from `kalloc`;
- the page table from `proc_pagetable`;
- the outcome of `uvmcopy`;
- the outcomes of `copyout`/`copyin`.

Blocking loops become single passes whose outcome says what happens next:
- `wait` gives `WaitOutcome`;
- `kthread_join` gives `JoinOutcome`;
- exit's drain gives `DrainOutcome`, and exit gives `ExitOutcome`.

When the outcome is "would sleep", the model performs the sleep. The retry
after a wakeup is another call.

Quirks of the code are modelled as written and stated as lemmas:
- Freed slots have pid and tid 0, so `kill(0)` and `kthread_kill(0)` hit
  freed slots. `allocproc` does not clear the killed flags, so the next
  process allocated in that slot is born killed
  (`KillZeroPoisonsNextProcess`).
- Exit's drain only ever looks at the first thread slot other than the
  caller's. Threads in later slots survive it, and the final step of exit
  turns every thread slot ZOMBIE, UNUSED ones included
  (`DrainProps`, `ExitFinishLeavesMachine`).
- `kthread_join` on a tid no slot holds leaves the process lock held and
  reads past the thread array. This path is the `JoinNotFound` outcome
  rather than an invented result. Exit's drain never takes it
  (`DrainNeverFaults`).
- After sleeping, `kthread_join` gives up when the *target* thread is
  killed, not when the caller is (`KThreadJoinAfterWake`).

Constants that come from headers outside the model are:
- `NPROC = 64`, `NKT = 8`, and `KSTACK` as in stock xv6
  (`param.h`, `kthread.h` and `memlayout.h` are not part of this model);
- `MAX_UTHREADS = 4` and `STACK_SIZE = 4000`, from the defines in the
  comments of `user/uthread.c`.

## Model

| member | source | states |
|---|---|---|
| ProcTypes.ProcChanOfDistinct | Assignment2_Threads/xv6-riscv/kernel/proc.c:419-422 | different process pointers name different sleep channels, and none names a thread's channel, so wait's sleepers and kthread_join's sleepers are told apart (`ProcChanOf` itself has no contract) |
| ProcTypes.ZeroProcInv | Assignment2_Threads/xv6-riscv/kernel/proc.c:13 | the zeroed static slot satisfies the slot invariant |
| ProcTypes.KStackSeparated | Assignment2_Threads/xv6-riscv/kernel/proc.c:39-46 | distinct stack numbers give stacks at least two pages apart, so a stack and its guard page never overlap another stack |
| ProcTypes.KStackInjective | Assignment2_Threads/xv6-riscv/kernel/kthread.c:22 | the stack number `p * NKT + k` with `k < NKT` is injective, so no two thread slots of the table share a kernel stack |
| KThreads.TrapframeAddr | Assignment2_Threads/xv6-riscv/kernel/kthread.c:91-93 | no contract of its own; `TrapframeAddrSeparated` states its behaviour |
| KThreads.TrapframeAddrSeparated | Assignment2_Threads/xv6-riscv/kernel/kthread.c:91-93 | distinct thread slots of one process get trapframes that do not overlap, and all of them fit in the process's trapframe page |
| KThreads.FreedThread | Assignment2_Threads/xv6-riscv/kernel/kthread.c:80-89 | a freed thread slot is UNUSED with tid, channel, exit status, killed flag, trapframe and owner cleared, and it keeps its kernel stack and saved context |
| KThreads.InitThread | Assignment2_Threads/xv6-riscv/kernel/kthread.c:17-22 | no contract of its own; `KThreadInitStacks` states its behaviour |
| KThreads.KThreadInitProc | Assignment2_Threads/xv6-riscv/kernel/kthread.c:13-24 | initialising a slot's threads keeps its shape |
| KThreads.KThreadInitStacks | Assignment2_Threads/xv6-riscv/kernel/kthread.c:13-24 | after kthreadinit every thread slot is UNUSED, and any two different thread slots of the table have different kernel stacks |
| KThreads.FirstUnused | Assignment2_Threads/xv6-riscv/kernel/kthread.c:48-60 | the result is the lowest UNUSED thread slot, or -1 exactly when none is UNUSED |
| KThreads.FirstWithTid | Assignment2_Threads/xv6-riscv/kernel/proc.c:832-847 | the result is the lowest thread slot holding that tid, or -1 exactly when none holds it |
| KThreads.AllocatedProc | Assignment2_Threads/xv6-riscv/kernel/kthread.c:61-75 | no contract of its own; `AllocKThreadSpecProps` states its behaviour |
| KThreads.AllocKThreadSpec | Assignment2_Threads/xv6-riscv/kernel/kthread.c:45-76 | allockthread keeps the slot's shape, and the returned index is -1 or a thread slot |
| KThreads.AllocKThreadSpecProps | Assignment2_Threads/xv6-riscv/kernel/kthread.c:45-76 | allockthread hands out the lowest UNUSED slot as USED, with tid = the old counter, counter + 1, owner = the process, context (forkret, kstack + PGSIZE) and its own trapframe, and leaves every other slot unchanged; it fails exactly when no slot is UNUSED or that slot's trapframe address is 0, and then the counter and every thread state are unchanged; tids stay distinct |
| KThreads.KThreadInit | Assignment2_Threads/xv6-riscv/kernel/kthread.c:13-24 | the loop leaves the process's thread slots as KThreadInitProc describes and no other slot changes |
| KThreads.AllocKThreadId | Assignment2_Threads/xv6-riscv/kernel/kthread.c:35-42 | returns the process's thread-id counter and advances it by exactly one |
| KThreads.AllocKThread | Assignment2_Threads/xv6-riscv/kernel/kthread.c:45-76 | the scan and set-up compute AllocKThreadSpec on that process, and no other process changes |
| KThreads.FreeKThread | Assignment2_Threads/xv6-riscv/kernel/kthread.c:80-89 | the thread slot becomes FreedThread of itself and nothing else changes |
| ProcSpec.TableInvPointwise | Assignment2_Threads/xv6-riscv/kernel/proc.c:13-17 | a table whose slots each keep the slot invariant, their pid (or clear it) and their kernel stacks keeps the table invariant |
| ProcSpec.TableInvUpdate | Assignment2_Threads/xv6-riscv/kernel/proc.c:13-17 | replacing one slot under those conditions keeps the table invariant |
| ProcSpec.SlotInvThreads | Assignment2_Threads/xv6-riscv/kernel/proc.c:13-17 | changing the thread slots of a process without changing any tid keeps the slot invariant |
| ProcSpec.FreedProc | Assignment2_Threads/xv6-riscv/kernel/proc.c:155-179 | freeproc keeps the slot's shape |
| ProcSpec.FreedProcProps | Assignment2_Threads/xv6-riscv/kernel/proc.c:155-179 | after freeproc the slot is UNUSED with pid, size, killed, exit status, parent, thread-id counter, trapframe page and page table all 0, and every thread slot freed with its kernel stack kept; the slot invariant holds |
| ProcSpec.FirstUnusedProc | Assignment2_Threads/xv6-riscv/kernel/proc.c:116-124 | the result is the lowest UNUSED process slot, or -1 exactly when none is UNUSED |
| ProcSpec.AllocSlot | Assignment2_Threads/xv6-riscv/kernel/proc.c:126-149 | setting up a found slot keeps its shape |
| ProcSpec.AllocSlotProps | Assignment2_Threads/xv6-riscv/kernel/proc.c:126-149 | on an UNUSED slot the set-up succeeds exactly when both allocations succeed; a failure leaves the slot freed and UNUSED; a success gives a USED slot with the new pid, the pages, counter 2 and thread 0 USED with tid 1, and keeps the killed flags |
| ProcSpec.AllocProcSpec | Assignment2_Threads/xv6-riscv/kernel/proc.c:112-150 | allocproc keeps every slot's shape, and the returned index is -1 or a slot |
| ProcSpec.AllocProcProps | Assignment2_Threads/xv6-riscv/kernel/proc.c:94-150 | allocproc takes the lowest UNUSED slot and consumes one pid exactly when it finds one; it returns null exactly when no slot is UNUSED or an allocation fails, and then no slot has changed state; on success the slot is USED with a pid no slot held, thread 0 is USED with tid 1, and the other slots are unchanged; the table invariant holds |
| ProcSpec.AllocInvUpdate | Assignment2_Threads/xv6-riscv/kernel/proc.c:94-105 | filling an UNUSED slot with the counter's pid keeps the table invariant once the counter has advanced |
| ProcSpec.AllocPidIncreasing | Assignment2_Threads/xv6-riscv/kernel/proc.c:94-105 | two successful allocations in a row hand out strictly increasing pids |
| ProcSpec.ForkChild | Assignment2_Threads/xv6-riscv/kernel/proc.c:307-341 | the child slot keeps its shape |
| ProcSpec.ForkSpec | Assignment2_Threads/xv6-riscv/kernel/proc.c:285-347 | fork keeps every slot's shape and returns -1 or a slot |
| ProcSpec.ForkInv | Assignment2_Threads/xv6-riscv/kernel/proc.c:285-347 | fork keeps the table invariant and changes no slot other than the lowest UNUSED one |
| ProcSpec.ForkChildInv | Assignment2_Threads/xv6-riscv/kernel/proc.c:307-341 | filling in the child keeps its slot invariant, pid and kernel stacks |
| ProcSpec.ForkFails | Assignment2_Threads/xv6-riscv/kernel/proc.c:294-306 | fork fails exactly when no slot is UNUSED, an allocation fails or the address-space copy fails; after a failure no slot has changed state |
| ProcSpec.ForkChildProps | Assignment2_Threads/xv6-riscv/kernel/proc.c:307-341 | a successful fork's child is the lowest UNUSED slot (not the parent's) with a fresh pid, the caller's process as parent, the parent's size and name, and a copy of the calling thread's registers with a0 = 0; thread 0 is RUNNABLE with tid 1 and no other thread is in use |
| ProcSpec.WakeThread | Assignment2_Threads/xv6-riscv/kernel/proc.c:647-651 | no contract of its own; `WakeupProps` states its behaviour |
| ProcSpec.WakeProc | Assignment2_Threads/xv6-riscv/kernel/proc.c:641-655 | waking one slot keeps its shape |
| ProcSpec.WakeupSpec | Assignment2_Threads/xv6-riscv/kernel/proc.c:636-657 | wakeup keeps the table's length and shapes |
| ProcSpec.WakeupProps | Assignment2_Threads/xv6-riscv/kernel/proc.c:636-657 | wakeup turns RUNNABLE exactly those threads that are SLEEPING on the channel, belong to a USED process and are not the caller; no other field of any slot changes, and no such thread is left asleep on the channel |
| ProcSpec.WakeupInv | Assignment2_Threads/xv6-riscv/kernel/proc.c:636-657 | wakeup keeps the table invariant |
| ProcSpec.WakeupIdempotent | Assignment2_Threads/xv6-riscv/kernel/proc.c:636-657 | a second wakeup on the same channel changes nothing |
| ProcSpec.WakeupSetParent | Assignment2_Threads/xv6-riscv/kernel/proc.c:357-361 | wakeup commutes with re-pointing a slot's parent |
| ProcSpec.ReparentPrefix | Assignment2_Threads/xv6-riscv/kernel/proc.c:357-362 | re-pointing parents keeps the table's length |
| ProcSpec.ReparentSpec | Assignment2_Threads/xv6-riscv/kernel/proc.c:352-363 | reparent keeps the table's length and shapes |
| ProcSpec.ReparentStep | Assignment2_Threads/xv6-riscv/kernel/proc.c:357-362 | one more iteration of the loop (re-point, wake init) extends the prefix result by one slot with a single wakeup applied |
| ProcSpec.ReparentWakes | Assignment2_Threads/xv6-riscv/kernel/proc.c:352-363 | on any table, reparent changes only parent pointers and thread states: a thread is woken exactly when some child moved and it sleeps on init in a USED process and is not the caller, and every other field of every thread is unchanged |
| ProcSpec.ReparentPrefixInv | Assignment2_Threads/xv6-riscv/kernel/proc.c:357-362 | re-pointing parents keeps the table invariant and changes only parent pointers |
| ProcSpec.ReparentProps | Assignment2_Threads/xv6-riscv/kernel/proc.c:352-363 | reparent hands exactly the children of the exiting process to init and leaves none pointing at it (when it is not init); no slot changes state, pid or any field other than its parent and thread states; a thread becomes RUNNABLE exactly when some child moved and it is SLEEPING on init in a USED process and is not the caller, and every other thread is unchanged; the table invariant holds |
| ProcSpec.ZombieProc | Assignment2_Threads/xv6-riscv/kernel/proc.c:426-434 | the exiting slot keeps its shape |
| ProcSpec.ExitFinishSpec | Assignment2_Threads/xv6-riscv/kernel/proc.c:416-434 | the end of exit keeps the table's length and shapes |
| ProcSpec.ZombieProcInv | Assignment2_Threads/xv6-riscv/kernel/proc.c:426-434 | storing the exit status and turning the slot ZOMBIE keeps its slot invariant, pid and stacks |
| ProcSpec.ExitFinishInv | Assignment2_Threads/xv6-riscv/kernel/proc.c:416-434 | the end of exit keeps the table invariant |
| ProcSpec.ExitFinishWakes | Assignment2_Threads/xv6-riscv/kernel/proc.c:416-434 | outside the exiting slot, the end of exit changes only parents and wakes exactly the threads sleeping on init (when a child moved) or on the exiting process's parent |
| ProcSpec.ExitWakesWaitingParent | Assignment2_Threads/xv6-riscv/kernel/proc.c:416-422 | a parent thread asleep in wait on its own process is RUNNABLE after its child exits |
| ProcSpec.ExitFinishProps | Assignment2_Threads/xv6-riscv/kernel/proc.c:416-434 | exit makes the process and all its thread slots ZOMBIE with the status and the same pid, hands its children to init and leaves no slot pointing at it; in every other slot only the parent and thread states change: a thread becomes RUNNABLE exactly when it sleeps, in a USED process and not as the caller, on init (when a child moved) or on the exiting process's parent (init when it was its own parent), and every other thread is unchanged; the table invariant holds |
| ProcSpec.WakeupEdges | Assignment2_Threads/xv6-riscv/kernel/proc.c:648-650 | every thread moves along an edge of the thread state machine under wakeup |
| ProcSpec.ExitFinishLeavesMachine | Assignment2_Threads/xv6-riscv/kernel/proc.c:429-434 | exit turns UNUSED, USED and RUNNABLE thread slots ZOMBIE, which the state machine has no edge for |
| ProcSpec.UpdThread | Assignment2_Threads/xv6-riscv/kernel/proc.c:618-624 | replacing one thread slot keeps the table's length and shapes |
| ProcSpec.UpdThreadInv | Assignment2_Threads/xv6-riscv/kernel/proc.c:574 | changing one thread of a process in use, with its tid and stack kept, keeps the table invariant |
| ProcSpec.SchedPanic | Assignment2_Threads/xv6-riscv/kernel/proc.c:549-566 | sched passes exactly when the thread lock is held, one lock level is pushed, the thread is not RUNNING and interrupts are off; the lock check comes first, then the nesting check |
| ProcSpec.KillOne | Assignment2_Threads/xv6-riscv/kernel/proc.c:677-684 | a killed thread is marked killed; a SLEEPING thread becomes RUNNABLE and any other keeps its state, an edge of the state machine; nothing else about it changes |
| ProcSpec.KillProc | Assignment2_Threads/xv6-riscv/kernel/proc.c:675-684 | killing a slot keeps its shape |
| ProcSpec.FirstWithPid | Assignment2_Threads/xv6-riscv/kernel/proc.c:672-690 | the result is the lowest slot holding that pid, or -1 exactly when none holds it |
| ProcSpec.KillSpec | Assignment2_Threads/xv6-riscv/kernel/proc.c:667-692 | no contract of its own; `KillProps` and `KillInv` state its behaviour |
| ProcSpec.KillInv | Assignment2_Threads/xv6-riscv/kernel/proc.c:667-692 | kill keeps the table invariant and the thread state machine |
| ProcSpec.KillProps | Assignment2_Threads/xv6-riscv/kernel/proc.c:667-692 | kill returns 0 exactly when some slot holds the pid: the first such slot gets its killed flag set and each of its threads becomes KillOne of itself, with no other field of that slot changed and every other slot unchanged; it returns -1 with the table unchanged otherwise |
| ProcSpec.KillZeroPoisonsNextProcess | Assignment2_Threads/xv6-riscv/kernel/proc.c:168 | with an UNUSED slot present, kill(0) succeeds, and the next process allocproc creates is born killed, as is its first thread |
| ProcSpec.KillThreadSpec | Assignment2_Threads/xv6-riscv/kernel/proc.c:824-852 | kthread_kill keeps the slot's shape |
| ProcSpec.KillThreadProps | Assignment2_Threads/xv6-riscv/kernel/proc.c:824-852 | kthread_kill returns 0 exactly when some thread holds the tid: the first one becomes KillOne of itself (killed, woken if SLEEPING) and nothing else changes; otherwise -1 and nothing changes; tids never change and threads follow the state machine |
| ProcSpec.SleepOn | Assignment2_Threads/xv6-riscv/kernel/proc.c:616-618 | no contract of its own; `Procs.Table.Sleep`, `JoinProps` and `WaitProps` state its behaviour |
| ProcSpec.JoinSpec | Assignment2_Threads/xv6-riscv/kernel/proc.c:896-951 | one pass of kthread_join keeps the slot's shape |
| ProcSpec.JoinProps | Assignment2_Threads/xv6-riscv/kernel/proc.c:896-951 | a ZOMBIE target is freed and its status returned, unless the copy-out fails (then nothing changes); a target that is not ZOMBIE puts the caller to sleep on it; an unknown tid is the fault outcome; nothing else changes |
| ProcSpec.JoinTwice | Assignment2_Threads/xv6-riscv/kernel/proc.c:896-947 | once a join of a non-zero tid has collected its target, a second join of the same tid takes the not-found path, since the freed slot's tid is 0 and tids are distinct |
| ProcSpec.CountTidsFree | Assignment2_Threads/xv6-riscv/kernel/proc.c:938 | freeing a thread with a non-zero tid lowers the number of such threads |
| ProcSpec.CountTidsSame | Assignment2_Threads/xv6-riscv/kernel/proc.c:838-841 | that number depends only on the tids |
| ProcSpec.DrainSpec | Assignment2_Threads/xv6-riscv/kernel/proc.c:374-397 | the drain keeps the slot's shape and terminates |
| ProcSpec.DrainDecreases | Assignment2_Threads/xv6-riscv/kernel/proc.c:390-393 | a drain round whose join succeeds lowers the number of threads with a non-zero tid |
| ProcSpec.DrainNeverFaults | Assignment2_Threads/xv6-riscv/kernel/proc.c:374-397 | the drain never takes the join's fault path |
| ProcSpec.DrainRound | Assignment2_Threads/xv6-riscv/kernel/proc.c:379-393 | with distinct tids, one drain round kills and joins the first slot other than the caller's |
| ProcSpec.DrainProps | Assignment2_Threads/xv6-riscv/kernel/proc.c:374-397 | the drain touches only that slot: when it completes, the slot is free or was never allocated and every other thread is unchanged; when it blocks, that slot is killed and the caller sleeps on it |
| ProcSpec.DrainInv | Assignment2_Threads/xv6-riscv/kernel/proc.c:374-397 | the drain keeps the table invariant |
| ProcSpec.DrainSlotInv | Assignment2_Threads/xv6-riscv/kernel/proc.c:374-397 | the drain keeps the slot invariant, pid and stacks |
| ProcSpec.ActiveCountOne | Assignment2_Threads/xv6-riscv/kernel/proc.c:866-876 | for an active caller the count is at least 1, and it is 1 exactly when no other thread slot is active |
| ProcSpec.ActiveCountNone | Assignment2_Threads/xv6-riscv/kernel/proc.c:866-873 | the count is 0 exactly when no thread slot is active |
| ProcSpec.ThreadExitSpec | Assignment2_Threads/xv6-riscv/kernel/proc.c:876-889 | a thread's own exit keeps the table's length and shapes |
| ProcSpec.ThreadExitProps | Assignment2_Threads/xv6-riscv/kernel/proc.c:876-889 | the exiting thread is ZOMBIE with its status and otherwise unchanged; another thread becomes RUNNABLE exactly when it is SLEEPING on the exiting thread in a USED process, and every other thread and every process field is unchanged; a RUNNING caller takes only edges of the state machine |
| ProcSpec.ThreadExitSparesWaiters | Assignment2_Threads/xv6-riscv/kernel/proc.c:876-880 | kthread_exit wakes only its joiners: a thread asleep on a process channel, such as a parent in wait, keeps its whole record |
| ProcSpec.ThreadExitInv | Assignment2_Threads/xv6-riscv/kernel/proc.c:876-889 | a thread's own exit keeps the table invariant |
| ProcSpec.ThreadCreateSpec | Assignment2_Threads/xv6-riscv/kernel/proc.c:771-806 | kthread_create keeps the slot's shape |
| ProcSpec.ThreadCreateProps | Assignment2_Threads/xv6-riscv/kernel/proc.c:771-806 | kthread_create fails with nothing changed exactly when no thread slot is UNUSED; otherwise the lowest UNUSED slot becomes RUNNABLE with a positive tid held by no other thread, starting at start_func with sp = stack + stack_size modulo 2^64, and the slot invariant holds |
| ProcSpec.FirstZombieChild | Assignment2_Threads/xv6-riscv/kernel/proc.c:463-486 | the result is the lowest ZOMBIE child of the caller, or -1 exactly when it has none |
| ProcSpec.WaitSpec | Assignment2_Threads/xv6-riscv/kernel/proc.c:451-504 | one pass of wait keeps the table's length and shapes |
| ProcSpec.WaitProps | Assignment2_Threads/xv6-riscv/kernel/proc.c:451-504 | wait reaps the lowest ZOMBIE child exactly when there is one and the copy-out succeeds or is not asked for, and it returns that child's positive pid and status and frees the slot; a failed copy-out leaves the table unchanged; with no ZOMBIE child it fails exactly when the caller is killed or has no children, and otherwise the caller sleeps on its process |
| ProcSpec.WaitInv | Assignment2_Threads/xv6-riscv/kernel/proc.c:451-504 | one pass of wait keeps the table invariant |
| ProcSpec.ExitThenWait | Assignment2_Threads/xv6-riscv/kernel/proc.c:416-482 | after a child exits, its parent's wait never fails or sleeps: it reaps some ZOMBIE child (the lowest) or stops only at a failed copy-out |
| ProcSpec.ExitThenWaitReaps | Assignment2_Threads/xv6-riscv/kernel/proc.c:416-482 | when the exiting child is its parent's only ZOMBIE child, the parent is not init and the copy-out succeeds or is not asked for, the parent's wait returns exactly the child's pid and the status passed to exit, and the child's slot is UNUSED |
| ProcSpec.FirstRunnableFrom | Assignment2_Threads/xv6-riscv/kernel/proc.c:524-537 | the result is the first RUNNABLE thread of a USED process at or after the given position in scan order, or none exactly when there is none |
| ProcSpec.FirstRunnableSkip | Assignment2_Threads/xv6-riscv/kernel/proc.c:525 | the scan passes over every thread slot of a process that is not USED |
| ProcSpec.SchedulerStepSpec | Assignment2_Threads/xv6-riscv/kernel/proc.c:524-537 | one selection keeps the table's length and shapes |
| ProcSpec.SchedulerStepProps | Assignment2_Threads/xv6-riscv/kernel/proc.c:524-537 | the scheduler runs the first RUNNABLE thread of a USED process in scan order, changes only that thread to RUNNING, changes nothing when none is left, and keeps the table invariant and the state machine |
| ProcSpec.BootTable | Assignment2_Threads/xv6-riscv/kernel/proc.c:52-63 | the booted table has NPROC well-shaped slots |
| ProcSpec.BootTableInv | Assignment2_Threads/xv6-riscv/kernel/proc.c:52-63 | after procinit every slot is UNUSED and the table invariant holds with 1 as the next pid |
| ProcSpec.UserInitSpec | Assignment2_Threads/xv6-riscv/kernel/proc.c:240-261 | userinit keeps the table's length and shapes |
| ProcSpec.BootUserInit | Assignment2_Threads/xv6-riscv/kernel/proc.c:240-261 | at boot, with both allocations succeeding, the first process is slot 0 with pid 1, named "initcode", with one RUNNABLE thread of tid 1 starting at user address 0 with sp = PGSIZE, and every other slot stays UNUSED |
| ProcSpec.KillThreadInv | Assignment2_Threads/xv6-riscv/kernel/proc.c:824-852 | kthread_kill keeps the table invariant |
| ProcSpec.JoinInv | Assignment2_Threads/xv6-riscv/kernel/proc.c:896-951 | one pass of kthread_join keeps the table invariant |
| ProcSpec.JoinSlotInv | Assignment2_Threads/xv6-riscv/kernel/proc.c:896-951 | one pass of kthread_join keeps the slot invariant, pid and stacks |
| ProcSpec.ThreadCreateInv | Assignment2_Threads/xv6-riscv/kernel/proc.c:771-806 | kthread_create keeps the table invariant |
| ProcSpec.UserInitInv | Assignment2_Threads/xv6-riscv/kernel/proc.c:240-261 | userinit keeps the table invariant |
| ProcSpec.UpdThreadEdges | Assignment2_Threads/xv6-riscv/kernel/proc.c:570-577 | changing one thread along an edge of the state machine moves every thread of the table along an edge |
| ProcSpec.AllocProcEdges | Assignment2_Threads/xv6-riscv/kernel/proc.c:112-150 | allocproc moves every thread along an edge (only the new slot's first thread, from UNUSED to USED) |
| ProcSpec.ForkEdges | Assignment2_Threads/xv6-riscv/kernel/proc.c:285-347 | fork moves every thread along at most two edges (the child's first thread from UNUSED through USED to RUNNABLE) |
| ProcSpec.ThreadCreateEdges | Assignment2_Threads/xv6-riscv/kernel/proc.c:771-806 | kthread_create moves every thread of the process along at most two edges (the new thread from UNUSED through USED to RUNNABLE) |
| ProcSpec.JoinEdges | Assignment2_Threads/xv6-riscv/kernel/proc.c:896-951 | a join by a RUNNING caller moves every thread of the process along an edge |
| ProcSpec.WaitEdges | Assignment2_Threads/xv6-riscv/kernel/proc.c:451-504 | a wait by a RUNNING caller moves every thread along an edge, when the threads of ZOMBIE processes are ZOMBIE or UNUSED as exit leaves them |
| ProcSpec.SchedAfterSwitchOut | Assignment2_Threads/xv6-riscv/kernel/proc.c:549-566 | after yield, sleep or kthread_exit have moved the caller out of RUNNING, sched's checks pass with only the thread lock held and interrupts off; a thread still RUNNING makes sched panic with "sched running" |
| ProcSpec.ExitDone | Assignment2_Threads/xv6-riscv/kernel/proc.c:369-446 | no contract of its own; it is the relation `Procs.Table.Exit` and `Procs.Table.KThreadExit` ensure, built from `DrainSpec` and `ExitFinishSpec` whose lemmas state its behaviour |
| Procs.Table.constructor | Assignment2_Threads/xv6-riscv/kernel/proc.c:52-63 | the table starts as BootTable, with next pid 1 and no init process, and the invariant holds |
| Procs.Table.ProcInit | Assignment2_Threads/xv6-riscv/kernel/proc.c:52-63 | every slot becomes UNUSED and goes through kthreadinit |
| Procs.Table.AllocPid | Assignment2_Threads/xv6-riscv/kernel/proc.c:94-105 | returns the counter and advances it by exactly one |
| Procs.Table.FreeProc | Assignment2_Threads/xv6-riscv/kernel/proc.c:155-179 | the slot becomes FreedProc of itself and nothing else changes |
| Procs.Table.FindUnusedProc | Assignment2_Threads/xv6-riscv/kernel/proc.c:116-124 | the scan returns FirstUnusedProc |
| Procs.Table.SetUpSlot | Assignment2_Threads/xv6-riscv/kernel/proc.c:126-149 | the set-up of the found slot computes AllocSlot |
| Procs.Table.AllocProc | Assignment2_Threads/xv6-riscv/kernel/proc.c:112-150 | allocproc computes AllocProcSpec (properties in AllocProcProps) and keeps the invariant |
| Procs.Table.UserInit | Assignment2_Threads/xv6-riscv/kernel/proc.c:240-261 | userinit computes UserInitSpec, records the slot as init, and keeps the invariant |
| Procs.Table.Fork | Assignment2_Threads/xv6-riscv/kernel/proc.c:285-347 | fork computes ForkSpec (properties in ForkFails and ForkChildProps), returns the child's pid or -1, and keeps the invariant |
| Procs.Table.CopyIntoChild | Assignment2_Threads/xv6-riscv/kernel/proc.c:307-341 | the child slot becomes ForkChild and nothing else changes |
| Procs.Table.Wakeup | Assignment2_Threads/xv6-riscv/kernel/proc.c:636-657 | the nested loops compute WakeupSpec |
| Procs.Table.WakeSlot | Assignment2_Threads/xv6-riscv/kernel/proc.c:642-654 | the inner loop computes WakeProc on one slot |
| Procs.Table.Reparent | Assignment2_Threads/xv6-riscv/kernel/proc.c:352-363 | the loop computes ReparentSpec |
| Procs.Table.Exit | Assignment2_Threads/xv6-riscv/kernel/proc.c:369-446 | exit drains the other threads, then panics for init or finishes as ExitFinishSpec, or blocks in the drain; it keeps the invariant |
| Procs.Table.FirstOtherTid | Assignment2_Threads/xv6-riscv/kernel/proc.c:379-387 | the inner loop reads the tid of the first thread slot other than the caller's |
| Procs.Table.Drain | Assignment2_Threads/xv6-riscv/kernel/proc.c:374-397 | the drain loop computes DrainSpec on the caller's slot |
| Procs.Table.KillAndJoin | Assignment2_Threads/xv6-riscv/kernel/proc.c:390-393 | one drain round is kthread_kill followed by one pass of kthread_join |
| Procs.Table.ExitFinish | Assignment2_Threads/xv6-riscv/kernel/proc.c:416-434 | the end of exit computes ExitFinishSpec and keeps the invariant |
| Procs.Table.ScanChildren | Assignment2_Threads/xv6-riscv/kernel/proc.c:462-486 | the scan finds the lowest ZOMBIE child and, when there is none, whether there are children |
| Procs.Table.Wait | Assignment2_Threads/xv6-riscv/kernel/proc.c:451-504 | one pass of wait computes WaitSpec and keeps the invariant |
| Procs.Table.FindRunnable | Assignment2_Threads/xv6-riscv/kernel/proc.c:524-537 | the nested scan returns FirstRunnableFrom |
| Procs.Table.SchedulerStep | Assignment2_Threads/xv6-riscv/kernel/proc.c:524-537 | one selection computes SchedulerStepSpec and keeps the invariant |
| Procs.Table.Yield | Assignment2_Threads/xv6-riscv/kernel/proc.c:570-577 | the caller becomes RUNNABLE, nothing else changes, the invariant holds, and a RUNNING caller moves every thread along an edge of the state machine |
| Procs.Table.Sleep | Assignment2_Threads/xv6-riscv/kernel/proc.c:603-621 | the caller records the channel and becomes SLEEPING, nothing else changes, and a RUNNING caller moves every thread along an edge of the state machine |
| Procs.Table.SleepReturn | Assignment2_Threads/xv6-riscv/kernel/proc.c:623-624 | on wakeup the caller's channel is cleared, nothing else changes |
| Procs.Table.FindPid | Assignment2_Threads/xv6-riscv/kernel/proc.c:672-690 | the scan returns FirstWithPid |
| Procs.Table.KillSlot | Assignment2_Threads/xv6-riscv/kernel/proc.c:675-684 | the slot becomes KillProc of itself and nothing else changes |
| Procs.Table.Kill | Assignment2_Threads/xv6-riscv/kernel/proc.c:667-692 | kill computes KillSpec and keeps the invariant |
| Procs.Table.SetKilled | Assignment2_Threads/xv6-riscv/kernel/proc.c:694-700 | sets only the process's killed flag |
| Procs.Table.Killed | Assignment2_Threads/xv6-riscv/kernel/proc.c:702-711 | returns the process's killed flag |
| Procs.Table.KThreadCreate | Assignment2_Threads/xv6-riscv/kernel/proc.c:771-806 | kthread_create computes ThreadCreateSpec on the caller's process and keeps the invariant |
| Procs.Table.CreateIn | Assignment2_Threads/xv6-riscv/kernel/proc.c:782-801 | allocation and set-up compute ThreadCreateSpec |
| Procs.Table.KThreadId | Assignment2_Threads/xv6-riscv/kernel/proc.c:809-821 | returns the caller's tid, which is 0 or below the process's counter |
| Procs.Table.FindTid | Assignment2_Threads/xv6-riscv/kernel/proc.c:910-922 | the scan returns FirstWithTid |
| Procs.Table.KThreadKill | Assignment2_Threads/xv6-riscv/kernel/proc.c:824-852 | kthread_kill computes KillThreadSpec on the caller's process and keeps the invariant |
| Procs.Table.KillTidIn | Assignment2_Threads/xv6-riscv/kernel/proc.c:832-851 | the scan computes KillThreadSpec |
| Procs.Table.KThreadJoin | Assignment2_Threads/xv6-riscv/kernel/proc.c:896-951 | one pass of kthread_join computes JoinSpec and keeps the invariant |
| Procs.Table.JoinIn | Assignment2_Threads/xv6-riscv/kernel/proc.c:908-951 | scan, collection and sleep compute JoinSpec |
| Procs.Table.KThreadJoinAfterWake | Assignment2_Threads/xv6-riscv/kernel/proc.c:953-967 | after waking, the join gives up exactly when the target thread is killed, and the caller's channel is cleared |
| Procs.Table.CountActive | Assignment2_Threads/xv6-riscv/kernel/proc.c:866-873 | the loop counts the thread slots that are USED, RUNNABLE, RUNNING or SLEEPING |
| Procs.Table.KThreadExit | Assignment2_Threads/xv6-riscv/kernel/proc.c:855-893 | with a count other than 1 the caller alone exits as ThreadExitSpec; with a count of 1 the whole process goes through exit; the invariant holds |
| Procs.Table.ZombieSelf | Assignment2_Threads/xv6-riscv/kernel/proc.c:876-889 | the caller wakes its joiners, stores its status and becomes ZOMBIE, as ThreadExitSpec |
| UThreads.CountLiveUpdate | Assignment2_Threads/xv6-riscv/user/uthread.c:21-25 | replacing one slot changes the number of non-FREE slots by the difference in liveness |
| UThreads.CountLiveZero | Assignment2_Threads/xv6-riscv/user/uthread.c:103 | no threads counted means every slot is FREE |
| UThreads.FirstFree | Assignment2_Threads/xv6-riscv/user/uthread.c:19-28 | the result is the lowest FREE slot, or -1 exactly when none is FREE |
| UThreads.PickIsBest | Assignment2_Threads/xv6-riscv/user/uthread.c:40-48 | after scanning a prefix, the choice is the lowest-index RUNNABLE slot of maximal priority if any slot is RUNNABLE, and otherwise the old choice |
| UThreads.Select | Assignment2_Threads/xv6-riscv/user/uthread.c:40-48 | no contract of its own; `SelectSpec` and `PickIsBest` state its behaviour |
| UThreads.SelectSpec | Assignment2_Threads/xv6-riscv/user/uthread.c:36-53 | over the whole table, the selection is the lowest-index RUNNABLE slot of maximal priority, or the old index when none is RUNNABLE |
| UThreads.UThreadLib.constructor | Assignment2_Threads/xv6-riscv/user/uthread.c:12-15 | all slots start FREE, with no current thread, index -1 and count 0 |
| UThreads.UThreadLib.UthreadCreate | Assignment2_Threads/xv6-riscv/user/uthread.c:17-34 | the first FREE slot becomes RUNNABLE with the priority, ra = start_func and sp at the top of its stack, the count goes up by one and 0 is returned; with no FREE slot it returns -1 and changes nothing; the counting invariant is kept |
| UThreads.UThreadLib.FindNextThread | Assignment2_Threads/xv6-riscv/user/uthread.c:36-53 | returns -1 exactly when every slot is FREE; moves next_thread_index to the best RUNNABLE slot when one exists and leaves it unchanged otherwise |
| UThreads.UThreadLib.UthreadYield | Assignment2_Threads/xv6-riscv/user/uthread.c:55-66 | nothing changes unless a different slot is selected; then the caller becomes RUNNABLE and the selected slot RUNNING and current, so one slot is still the only RUNNING one |
| UThreads.UThreadLib.UthreadExit | Assignment2_Threads/xv6-riscv/user/uthread.c:68-88 | the caller's slot becomes FREE and the count drops by one; control passes to the best RUNNABLE slot, or the process exits when no slot is left |
| UThreads.UThreadLib.UthreadSetPriority | Assignment2_Threads/xv6-riscv/user/uthread.c:90-94 | returns the current thread's previous priority and stores the new one, changing nothing else |
| UThreads.UThreadLib.UthreadGetPriority | Assignment2_Threads/xv6-riscv/user/uthread.c:97-99 | returns the current thread's priority |
| UThreads.UThreadLib.UthreadSelf | Assignment2_Threads/xv6-riscv/user/uthread.c:116-118 | returns the current slot |
| UThreads.UThreadLib.UthreadStartAll | Assignment2_Threads/xv6-riscv/user/uthread.c:101-114 | returns -1 and changes nothing when there is no thread or it already ran; otherwise it marks itself as run and makes the best RUNNABLE slot RUNNING and current |
| RandomDev.LfsrChar | Assignment4_Files/kernel/random.c:26-32 | no contract of its own; `LfsrCharBits`, `LfsrCharInjective` and `LfsrCharFixedPoint` state its behaviour |
| RandomDev.LfsrCharBits | Assignment4_Files/kernel/random.c:26-32 | bits 0-6 of a step are bits 1-7 of the input, and bit 7 is the XOR of input bits 0, 2, 3 and 4 |
| RandomDev.LfsrUnstep | Assignment4_Files/kernel/random.c:29-30 | recovers the input of a step from its output |
| RandomDev.LfsrCharInjective | Assignment4_Files/kernel/random.c:26-32 | a step is injective on bytes, with LfsrUnstep as its inverse |
| RandomDev.LfsrCharFixedPoint | Assignment4_Files/kernel/random.c:26-32 | 0 is the step's only fixed point |
| RandomDev.IterateAdd | Assignment4_Files/kernel/random.c:64 | iterating a then b steps is iterating a + b steps |
| RandomDev.IterateZero | Assignment4_Files/kernel/random.c:64 | a zero seed only ever yields 0 |
| RandomDev.IterateInjective | Assignment4_Files/kernel/random.c:64 | different seeds never give the same k-th output, and a non-zero seed never reaches 0 |
| RandomDev.CopiedFromBounds | Assignment4_Files/kernel/random.c:62-73 | the copies counted from a position all succeed, the next one fails unless the read is complete, and the count stays within the request |
| RandomDev.CopiedBounds | Assignment4_Files/kernel/random.c:62-75 | a read returns between 0 and max(n, 0) bytes, exactly max(n, 0) when no copy fails, and otherwise the number of copies before the first failure |
| RandomDev.DeliverProps | Assignment4_Files/kernel/random.c:66 | bytes delivered one per address land at dst, dst + 1, ..., and no other address changes |
| RandomDev.DeliverAsWrittenLast | Assignment4_Files/kernel/random.c:66 | with a fixed destination, only the last byte delivered remains, at dst |
| RandomDev.TwoByteReadAsWritten | Assignment4_Files/kernel/random.c:62-75 | a two-byte read from a non-zero seed leaves the second byte at dst and never writes dst + 1, where the corrected read leaves the first byte at dst and writes dst + 1 |
| RandomDev.RandomDevice.constructor | Assignment4_Files/kernel/random.c:14-17 | the static seed starts at 0 |
| RandomDev.RandomDevice.RandomInit | Assignment4_Files/kernel/random.c:34-41 | the seed becomes 0x2A |
| RandomDev.RandomDevice.RandomWrite | Assignment4_Files/kernel/random.c:43-56 | a write of n != 1 bytes or a failed copy-in returns -1 with the seed unchanged; otherwise it returns 1 and the seed is the written byte |
| RandomDev.RandomDevice.RandomReadAsWritten | Assignment4_Files/kernel/random.c:58-76 | returns the number of successful copies, the k-th byte copied is the (k+1)-th iterate of the old seed, the seed advances once more than the count when a copy fails, and every byte is written to dst |
| RandomDev.RandomDevice.RandomRead | Assignment4_Files/kernel/random.c:58-76 | the same count, bytes and seed, with the k-th byte written to dst + k |

## Findings

| source | as written | input that shows it | evidently intended | confidence | as-written member | corrected member |
|---|---|---|---|---|---|---|
| Assignment4_Files/kernel/random.c:66 | every round of randomread copies the new seed to `dst`, which never advances | a read of 2 bytes from seed 0x2A into a buffer at `dst` with both copies succeeding: `dst` ends up holding the second byte and `dst + 1` is never written (RandomDev.TwoByteReadAsWritten) | round k copies its byte to `dst + k`, so the buffer holds the n bytes produced | not executed; high | RandomDev.RandomDevice.RandomReadAsWritten | RandomDev.RandomDevice.RandomRead |

## Left out

- Spinlocks (`acquire`/`release`/`holding`, `push_off`/`pop_off`), interrupts and concurrency: each call is one atomic step. The checks of `sched` are the function `SchedPanic` over explicit lock, nesting and interrupt parameters.
- Context switches (`swtch`, `uswtch`), `forkret`, `usertrapret`, `mycpu`/`mykthread`/`myproc`: the running thread is a parameter. The scheduler's endless loop is one selection resumed at a scan position; the CPU's `curr_thread` is the returned thread.
- The page-table and memory layer (`kalloc`, `kfree`, `proc_pagetable`, `proc_freepagetable`, `proc_mapstacks`, `uvmcopy`, `uvmfirst`, `growproc`): allocations are parameters that are 0 on failure, and `uvmcopy` is a success flag. Memory contents are not modelled, apart from the trapframe fields the core writes (`epc`, `sp`, `a0`).
- `copyout`, `copyin`, `either_copyout`, `either_copyin`: success flags, or one flag per attempt for the random device. The random device's user memory is a map from addresses to bytes.
- Files and the file system (`filedup`, `fileclose`, `idup`, `iput`, `namei`, `begin_op`/`end_op`, `fsinit`), `procdump`, `printf`, `uartinit` and the `devsw` registration.
- Blocking: `wait`, `kthread_join` and exit's drain are single passes. The retry after a wakeup is another call, so liveness is not modelled.
- Sleep channels are compared by what they name (a process slot, a thread slot, or another address), not by address arithmetic.
- Procs.Table.Yield: does not model the switch out and back; only the state change before `sched` is modelled.
- Procs.Table.KThreadExit: ends at the state before `sched`; the `panic` after an unexpected return is not modelled.
- Procs.Table.AllocPid: does not model 32-bit wrap-around of `nextpid`; the table invariant assumes fewer than 2^31 allocations.
- ProcSpec.WaitEdges: requires that the threads of every ZOMBIE process are ZOMBIE or UNUSED; exit leaves them so (ExitFinishProps), but this is not part of the table invariant.
- KThreads.AllocKThreadId: does not model 32-bit wrap-around of the thread-id counter.
- ProcSpec.UserInitSpec: when `allocproc` fails, the source dereferences a null pointer; the model returns the table unchanged with no init process.
- The process name is a string; `safestrcpy`'s truncation to 16 bytes is not modelled.
- UThreads.UThreadLib.UthreadYield: requires a current thread (`curr_thread` non-null) whose slot is not FREE; the source dereferences `curr_thread` without a check, and a FREE current slot arises only after `uthread_exit`, which never returns to it.
- UThreads.UThreadLib.UthreadExit: requires a current thread whose slot is not FREE, for the same reason; the `exit(0)` system call is the `ProcessExit` outcome.
- UThreads.UThreadLib.UthreadSetPriority: requires a current thread, for the same reason.
- UThreads.UThreadLib.UthreadGetPriority: requires a current thread, for the same reason.
- The saved user-thread context is only its entry point and stack offset; `uswtch` saving registers into it is not modelled. Priorities are natural numbers standing for the enum of `user/uthread.h`, which is not part of this model.
