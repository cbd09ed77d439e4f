# ZeOS kernel and file system: a verified model

ZeOS is a small teaching operating system. This project models its two stateful parts and proves what
they promise.

**The file system.** `fat.c` keeps every file, and the free space, as a singly linked chain of blocks
threaded through one array, `block_lists`. Reads and writes split a byte range over blocks and go
through a one-block buffer. The class `FatFs` is that code, with its fields changed in place. Its
meaning is a plain volume: which files exist, the bytes of each, and how many blocks are free
(`FatVolume`). The central results say that the linked, chunked code *is* the plain volume, for one
call and for whole runs, with exact space accounting, and say exactly where the code falls short of it.

**The kernel.** Task slots move between the run queue, the free queue, the keyboard queue and the
semaphore queues on intrusive circular doubly linked lists, while `fork` and `exit` hand page frames
around. The interrupt gates keep interrupts off inside the kernel, so every entry is atomic and the
kernel is a state machine over its entries. `KernelSpec` gives each entry as a function on states with
queues as sequences; `KernelInv` is the invariant; `KernelMachine` has the steps and runs. The classes
`Lists`, `CircBuff`, `Memory` and `Kernel` are the code of `list.h`, `circbuff.c`, `mm.c`, `sched.c`,
`sys.c` and the keyboard path, with pointers, arrays and counters changed in place; they are proved to
perform exactly those steps, from the boot code on (`KernelCode.BootAndRun`).

| files | part |
|---|---|
| `Sequences` | sequences without repetition, families of them that partition 0..n-1 |
| `FatLayout`, `FatSpec`, `FatLinkage`, `FatWriting` | chains, block images, the effect of each call, what the links always keep, the write loop's invariant |
| `FatVolume`, `FatRefinement`, `FatUnlinking` | the plain volume, and the refinement of it; exactly when unlinking refines it |
| `FatFiles`, `FatRuns`, `DeviceFiles`, `FatDefects` | the code of `fat.c`, runs of calls, the chunk loops of `devices.c`, runs into the places where the code falls short |
| `KernelTypes`, `MemorySpec`, `KernelSpec` | kernel state, memory and every entry point as functions |
| `KernelInv`, `KernelSteps`, `KernelProcesses`, `KernelMachine`, `KernelBoot` | the invariant, its preservation, the boot state |
| `KernelOutcomes`, `KernelTransfers` | what each entry answers and changes, field by field, and who may do what |
| `KernelReturns`, `KernelAccounts` | over runs: the result a task goes on with, and the counters it is charged |
| `KernelScheduling`, `KernelWaiting`, `KernelStarvation`, `KernelSemaphores`, `KernelKeyboard`, `KernelReached`, `KernelIsolation`, `KernelPages` | properties of whole runs |
| `TaskLists`, `RingBuffer`, `MemoryManager`, `KernelCode` | the code itself |

All sizes (`MAX_BLOCKS`, `BLOCK_SIZE`, `NR_TASKS`, `NR_SEM`, `CIRC_BUFF_SIZE`, the page counts, ...) are
symbolic constants. The only assumptions about them are the constraints of two subset types, whose
witnesses are the numbers the system is built with (and, for the guard pages below the task structures,
some places in the kernel, since the linker chooses them); so every theorem holds for those numbers and
for any others that fit. The one constraint with content is that the candidate frames suffice for the data of
`NR_TASKS` tasks (380 of them against 200 needed, in the system as built).

Where the code and its comments or evident intent differ, the model follows the code, and the difference
is a theorem:

- `fat_unlink` does not move `last_free_block` when blocks are free. `UnlinkReclaimsIff` says exactly
  when the structure survives the call: for a non-empty file whose size fits its chain, if and only if
  that record was true. Two such calls in a row, blocks being free, lose blocks (`TwoUnlinksBreak`), and
  runs that get there are easily had (`LosingRun`). Later on the call can replace blocks of another file
  by those of the one unlinked: `OtherFileAfter` says exactly when, and `Overwritten` does it. `Execute`
  proves the code as written to be the plain volume, results included, for all runs of safe calls, and
  `SafeIff` that the condition on each unlink is exact. `UnlinkWithTail` adds the missing assignment, as
  a declared deviation, and then every allowed run is the plain run (`ExecuteWithTail`). Whatever calls
  are made to the code as written, no block is ever pointed at twice, so every walk ends and chains never
  share blocks (`ExecuteAny`).
- A write that starts more than one block past the chain is stored at the chain's end, and the size then
  no longer fits the chain: `WriteSizeIff` says for which offsets this happens, `BreakSize` shows it.
- `sys_write_file` adds a failing chunk's error code to the bytes of the chunks before it
  (`WriteResultIff`, `ShortWrite`).
- `is_empty` compares head and tail, so a full ring looks empty as well as full. From then on no
  character gets in or out (`FullForGood`, `FullForever`), and a read returns 0 after overwriting the
  caller's buffer with old contents of the system buffer (`FullReadsNothing`). The delivery theorem is
  stated for runs in which the ring does not fill up and reads ask for 1 to `CIRC_BUFF_SIZE - 1`
  characters.
- A waiting reader is served only when the buffer holds *exactly* what it wants. `StuckIff` says, for
  every state and every reader in the queue, whether it waits for good: it does unless the first reader
  can still be met, all up to it want between 1 and `CIRC_BUFF_SIZE` characters, and nobody behind one
  that wants all of `CIRC_BUFF_SIZE` wants less.
- `fork` puts the child in front of runqueue. Waiting for the processor is bounded by the forks that
  happen (`BoundedWait`, `DispatchedInTime`). Whatever is called, it is bounded if and only if the free
  slots and the processes other than task 0 that run before the waiting task are fewer than two together
  (`StarvationIff`).
- The clean-up of a fork that runs out of frames also frees the frame number it finds in the slot it could
  not fill, which is a frame of the parent's (`CopyPagesFails`). No reachable state gets there
  (`ForkOutcome`).
- `sys_sem_init` stores an unsigned value in a signed field; `InitStarts` says which values survive.

## Model

| member | source | states |
|---|---|---|
| FatFiles.FatFs.Init | fat.c:3-28 | after formatting, the free chain is 0, 1, ..., the tail record is true, every file is unused and empty |
| FatFiles.FatFs.TranslateBlock | fat.c:37-49 | the walk finds exactly the requested element of the file's chain; one past the last, and anything beyond, both give the end mark |
| FatFiles.FatFs.AddBlock | fat.c:52-76 | the head of the free chain, or -ENOSPC with nothing changed |
| FatSpec.AddBlockDescribes | fat.c:52-76 | the pointer assignments move exactly the head of the free chain to the tail of the file: partition, both ends of both chains and the counters stay right, and a true tail record stays true |
| FatLinkage.BlockAddedLinked | fat.c:52-76 | taking a block, even behind a stale last-block field, leaves no block pointed at twice |
| FatLinkage.UnlinkedLinked | fat.c:245-263 | so does unlinking as written, even behind a stale tail record |
| FatLinkage.ChainExists | fat.c:265-269 | where no block is pointed at twice every walk from a head ends, the last loop of fat_unlink included |
| FatLinkage.ChainsSeparate | fat.c:37-49 | and no two chains meet: no two files ever share a block, or one with the free list |
| FatLinkage.DescribedLinked | fat.c:3-76 | described states, the formatted one among them, are such states |
| FatFiles.FatFs.Write | fat.c:196-237 | for any offset, from a described state: what fits is stored over the target blocks, the file grows by exactly the blocks needed, other blocks and entries are untouched, the result is count or -ENOSPC; from any reachable state at all the links stay sound |
| FatFiles.FatFs.Read | fat.c:155-193 | in every reachable state, for any offset and count: exactly the bytes of the file's chain up to the size |
| FatFiles.FatFs.Create | fat.c:139-153 | in every reachable state: the first unused entry, emptied, or -ENOSPC with nothing changed; from a sound state that is creation on the plain volume, and no chain and no tail record changes |
| FatFiles.FatFs.Unlink | fat.c:239-272 | in every reachable state: the assignments as written, and the final walk ends; when the call is safe, the new free chain is the old one followed by the file's chain |
| FatFiles.FatFs.UnlinkWithTail | fat.c:239-272 | with the missing assignment added: always the plain unlink, and the tail record stays true |
| FatLayout.ChainUnique | fat.c:42-48 | the links determine a chain: two descriptions of what a walk visits are the same |
| FatLayout.LayoutUnique | fat.c:37-76 | a state has one layout, so the abstract view of the code's state is well defined |
| FatLayout.SpaceConserved | fat.c:72-73 | free_block_count and used_block_count are the blocks on the free chain and on all file chains, and together every block |
| FatSpec.UnlinkDescribes | fat.c:245-263 | unlinking with a true tail frees exactly the file's blocks and adjusts the counters by exactly their number; the tail record survives as written if and only if one of the two chains was empty |
| FatUnlinking.UnlinkReclaimsIff | fat.c:245-256 | as written, in every state some layout describes: one describes the result too if and only if the call is safe (no block was free, or the tail record was true, or, for an empty file, it named the last block of some chain) and the size still fits the chain |
| FatUnlinking.SafeDescribes | fat.c:245-263 | a safe unlink, of an empty file behind a harmless stale record included, gives back exactly the file's blocks |
| FatUnlinking.EmptyUnlink | fat.c:245-246 | unlinking an empty file with blocks free changes nothing but its entry if the tail record names the end of a chain, and otherwise cuts blocks off |
| FatUnlinking.StaleTailBreaks | fat.c:245-250 | with a stale tail, what the links then visit leaves out some block or misnames the end of some chain |
| FatUnlinking.TwoUnlinksBreak | fat.c:245-250 | after unlinking two non-empty files in a row with blocks free, the links thread chains, and whatever chains they thread, some block is on none of them |
| FatDefects.LosingRun | fat.c:139-272 | a run that gets there from formatting, for every volume of two entries and three blocks: all its calls are allowed, and the last is the first that is not safe |
| FatUnlinking.OtherFileAfter | fat.c:245-246 | what unlinking leaves of another file's chain, wherever the tail record points: it is kept, as it was or with the unlinked blocks behind it, if and only if the record does not point inside it; if it does, the rest of the chain is replaced by the unlinked file's |
| FatUnlinking.OtherBytesAfter | fat.c:245-246 | so every other file keeps its bytes, but for one the record points inside of |
| FatDefects.Buries | fat.c:139-272 | a run of safe calls from formatting, on any volume of two entries and four blocks, after which the record points inside a file |
| FatDefects.Overwritten | fat.c:139-272 | after it, unlinking a file of one byte puts that byte into the middle of the other file: the code, run from formatting, reads one byte there before and the other after |
| FatUnlinking.UnlinkRefines | fat.c:239-263 | through the view, a safe unlink removes the file, returns its blocks and changes no other file's bytes |
| FatUnlinking.UnlinkWithTailRefines | fat.c:239-263 | with the tail record kept up to date, so does every unlink |
| FatRefinement.WriteRefines | fat.c:196-237 | for every offset up to the size, with or without room: the file's bytes become the old ones with what fits laid over, every other file is unchanged, and the result is the plain volume's |
| FatRefinement.ReadRefines | fat.c:155-193 | reading through the chain is slicing the file's bytes at offset .. min(offset+count, size) |
| FatRefinement.CreateRefines | fat.c:139-153 | creating is taking the first unused file of the plain volume |
| FatRefinement.WriteSizeIff | fat.c:206-231 | for any offset: the chain goes on being as long as the size needs if and only if nothing was stored or the write began at most one block past the chain |
| FatDefects.BeyondBreaks | fat.c:206-231 | a byte written one block past the end of an empty file leaves a size that no longer fits the chain, and unlinking the file then leaves wrong counters |
| FatDefects.BreakSize | fat.c:3-237 | the same, reached by the code from formatting |
| FatVolume.WriteSpace | fat.c:206-212 | a write completes if and only if max(0, ceil((offset+count)/BLOCK_SIZE) - chain length) blocks are free; otherwise -ENOSPC, no block free, and the longest prefix that fits is stored |
| FatVolume.OverwriteAt | fat.c:196-237 | the bytes of a file after the plain write, index by index: the buffer's from the offset on, the old ones before and behind |
| FatVolume.WriteThenRead | fat.c:155-237 | reading back a write, complete or cut short, gets exactly the bytes that were stored and none behind them |
| FatVolume.SpaceBound | fat.c:208-212 | the same bound for the chain form |
| FatVolume.SizeKeptIff | fat.c:229-231 | when the chain length stays ceil(size/BLOCK_SIZE), for every offset |
| FatWriting.RoundBytes | fat.c:214-222 | one read-modify-write round extends the stored range by its chunk, across block boundaries |
| FatWriting.LastPosition | fat.c:206-237 | the loop leaves with everything that fits stored |
| FatRuns.RunConserves | fat.c:72-73 | no run gains or loses a block: free blocks plus those the files' sizes call for are constant |
| FatRuns.FilesIndependent | fat.c:155-272 | a file's bytes depend on the calls to that file alone, if its own writes found room, whatever happens to the others, writes cut short included |
| FatRuns.SafeIff | fat.c:245-250 | told from the calls made so far alone: an unlink in a run leaves a structure some layout describes if and only if it is safe |
| FatRuns.WriteMovesTail | fat.c:63-67 | where last_free_block points after a write: relative to the free chain, at the end of a file, or inside one |
| FatRuns.UnlinkMovesTail | fat.c:245-250 | and after a safe unlink |
| FatRuns.NoUnlinkIsSafe | fat.c:139-237 | runs of creates and writes are among those proved for the code as written |
| FatRuns.Execute | fat.c:139-272 | the code as written, over any run of safe calls: the volume and every result are those of the plain run |
| FatRuns.ExecuteWithTail | fat.c:139-272 | with the tail assignment, every allowed run is the plain run, results included |
| FatRuns.ExecuteAny | fat.c:139-272 | the code as written, over any calls on any entries at any offsets, unsafe unlinks included: every access is in range, every walk ends, and no two files share a block |
| FatRuns.ReadAfterRun | fat.c:3-272 | format, run, read: exactly the bytes the plain volume holds there |
| DeviceFiles.SysWriteFile | devices.c:114-131 | writing in chunks leaves the volume as one write of everything; the result when space runs out |
| DeviceFiles.SysReadFile | devices.c:133-150 | reading in chunks is one read |
| DeviceFiles.WriteResultIff | devices.c:124-128 | the result is the number of bytes stored if and only if all were stored |
| DeviceFiles.ResultOfChunks | devices.c:124-129 | when space runs out the result is the bytes of the complete chunks before, plus -ENOSPC |
| FatDefects.ShortWrite | devices.c:114-131 | a write of one byte more than the volume holds fills every block and returns something else than the bytes stored |
| DeviceFiles.WriteAppends | devices.c:120-129 | two writes in a row, the first complete, are one write |
| DeviceFiles.WriteCutShort | devices.c:127 | after a write that was cut short a further one stores nothing |
| DeviceFiles.ReadAppends | devices.c:139-148 | two reads in a row, the first complete, are one; after a short one nothing is left |
| TaskLists.InsertRing | include/list.h:34-41 | linking a node between two neighbours of a circular list gives the circular list with it there, in both directions, from the empty list on |
| TaskLists.DeleteRing | include/list.h:75-90 | unlinking a member gives the circular list without it |
| TaskLists.HeapInsert | include/list.h:34-66 | insertion keeps every list of the heap a well-formed circular doubly linked list |
| TaskLists.HeapDelete | include/list.h:75-90 | so does deletion, from whichever list the node is in |
| TaskLists.Lists.InitHead | include/list.h:23-26 | an initialised head is the empty list; the others stay |
| TaskLists.Lists.Link | include/list.h:34-41 | the four pointer writes, on the sequences the lists hold |
| TaskLists.Lists.Add | include/list.h:51-53 | puts a task at the front |
| TaskLists.Lists.AddTail | include/list.h:64-66 | puts a task at the end |
| TaskLists.Lists.Del | include/list.h:86-90 | takes a task out of the list it is in; afterwards it is in none |
| TaskLists.Lists.Empty | include/list.h:106-108 | true exactly of the empty list |
| TaskLists.Lists.FirstOf | include/list.h:131-132 | the first member; of an empty list the head itself |
| RingBuffer.CircBuff.GetCharacter | circbuff.c:11-22 | moves the oldest min(size, count) characters, and none at all from a full ring |
| RingBuffer.CircBuff.SaveCharacter | circbuff.c:25-33 | appends, or refuses with -1 when full |
| RingBuffer.CircBuff.IsEmpty | circbuff.c:35-37 | true of the empty and of the full ring |
| RingBuffer.AtIsMod | circbuff.c:16-29 | the ring positions are sums modulo CIRC_BUFF_SIZE, so tail = (head + count) mod size in every state |
| RingBuffer.PerformOps | circbuff.c:11-33 | the class performs any sequence of operations as the sequence model does |
| RingBuffer.FirstInFirstOut | circbuff.c:11-33 | over any sequence of operations, what was handed out followed by what is left is what was there followed by what was accepted |
| RingBuffer.FullForGood | circbuff.c:14-41 | a full ring is a fixed point of every sequence of operations |
| MemoryManager.Memory.constructor | mm.c:134-136 | the kernel's pages map to themselves except the guard pages, and their frames are used, nothing else |
| MemoryManager.Memory.InitTablePages | mm.c:42-63 | maps the kernel's pages to themselves and takes the guard pages of the task structures out again |
| MemoryManager.Memory.InitFrames | mm.c:195-206 | exactly the kernel's frames are used |
| MemoryManager.Memory.AllocFrame | mm.c:210-222 | the lowest free frame of every second one is taken, or -1 |
| MemorySpec.FirstFreeCount | mm.c:210-222 | allocation fails exactly when no candidate is free |
| MemorySpec.FreedCount | mm.c:225-228 | freeing n distinct used candidates gives back exactly n |
| MemoryManager.Memory.ShowFrames | sched.c:120-125 | the data window shows exactly the given frames, the rest of the table is unchanged |
| MemoryManager.Memory.CopyToUser | utils.c:38-51 | the bytes are stored through the data window |
| MemorySpec.StoreBytesSeen | utils.c:38-51 | storing changes exactly the addressed bytes of the task in the window and no other frame |
| MemoryManager.Memory.SetUserPages | mm.c:66-93 | code pages are mapped to fixed frames, data pages to allocated ones |
| MemorySpec.CopyPagesEffect | sys.c:93-109 | with n candidates free the first n rounds of fork's loop succeed: fresh frames, filled with copies, one fewer candidate each, page table as before |
| MemorySpec.CopyPagesFails | sys.c:93-109 | with fewer candidates, k, it fails in round k: the frames it took are free again, the page table is as before, and the frame listed for page k is freed although in use |
| MemorySpec.CleanedUpFrees | sys.c:97-99 | the clean-up frees the listed frames up to the failing slot, and no others |
| KernelBoot.BootState | system.c:89-114 | at the hand-over task 0 alone is in use and runs with a full quantum, its data in the first candidate frames behind the code; slots are free with the last one first, no semaphore is in use, nothing is typed |
| KernelBoot.BootCandidates | mm.c:82-92 | boot's allocations are every second frame behind the code, in order |
| KernelBoot.BootInv | system.c:89-125 | main hands over to user code in a state that satisfies the invariant |
| KernelBoot.Reachable | interrupt.c:96-98 | every state any run of entries reaches from boot satisfies the invariant: each slot in exactly one queue, current in runqueue and running, task 0 ready, pids unique, semaphores owned by live tasks, frames owned once, current's frames in the window |
| KernelMachine.StepKeeps | interrupt.c:96-98 | every entry point keeps the invariant |
| KernelMachine.Run | interrupt.c:96-98 | so does every run |
| KernelMachine.WaitReady | sys.c:297-300 | when sem_wait blocks, runqueue is not empty afterwards, so sched_select_next finds a task |
| KernelMachine.ReadReady | devices.c:95-100 | the same for a keyboard read |
| KernelMachine.ExitReady | sys.c:49-74 | the same for exit |
| KernelMachine.StoredPages | interrupt.c:299-312 | lending the window to the reader and taking it back leaves the page table as it was |
| KernelPages.StepPages | sched.c:120-125 | every entry point leaves the page table exactly boot's with the running task's frames in the data window |
| KernelPages.ReachablePages | sched.c:120-125 | so it is in every state reached from boot; page by page: the kernel mapped to itself but for the guards, the user code behind it, the running task's frames, nothing else |
| KernelPages.OnlyOwnData | mm.c:119-131 | a page shows a live task's frame only if it is its window page and the task is running; pages outside kernel, code and window fault |
| KernelProcesses.RoomForOneMore | mm.c:210-222 | while freequeue is not empty, enough candidate frames are free for one more task, by counting |
| KernelProcesses.ForkOutcome | sys.c:78-132 | fork never returns -ENOMEM, returns -EAGAIN exactly when freequeue is empty, and else a new pid |
| KernelProcesses.ForkKeeps | sys.c:78-132 | a successful fork keeps the whole invariant |
| KernelProcesses.ExitKeeps | sys.c:42-76 | exit keeps the whole invariant |
| KernelBoot.ExitForgets | sys.c:42-76 | after exit no other queue, no semaphore, no live pid and no used frame refers to the task, and exactly its frames are free again |
| KernelOutcomes.ForkAnswers | sys.c:78-132 | without a slot -EAGAIN and nothing changes; else the parent gets the child's pid, one above all before, and the child has result 0, its parent's structure with clean counters and a full quantum, and the place in front of runqueue; parent and all others are as they were |
| KernelOutcomes.ExitAnswers | sys.c:42-76 | task 0 does not exit; any other leaves its slot first on freequeue, exactly its frames free and exactly its semaphores given up, their waiters ready in order with -1, everybody else as they were, and the next ready task running |
| KernelReturns.ChildStartsWithZero | sys.c:126-129 | whatever happens in between, the child of a fork is first dispatched with result 0 |
| KernelScheduling.StepRank | sched.c:188-246 | a ready task's distance (roundtics plus the quanta of the others ahead) drops by exactly 1 with each tick, the task is dispatched exactly when it was 1, and only fork raises it, by exactly the parent's quantum |
| KernelOutcomes.TickCounts | sched.c:188-195 | short of the end of the round a tick is counted and nothing else changes |
| KernelOutcomes.TickHandsOver | sched.c:238-246 | at its end the running task, counted the tick, is ready and last, and the first of the others runs with its own full quantum and one more switch; nobody else changes |
| KernelAccounts.StepTurn | sched.c:199-220 | an entry passes the processor on exactly when the round is over or the caller leaves or has to wait, to the first ready task, the running one only if nobody else is ready; a call has a result exactly when it does not |
| KernelAccounts.StepCharged | sched.c:188-220 | what one entry does to the counters of any task it does not remove |
| KernelAccounts.CountersExact | sched.c:188-220 | over any run in which a task does not exit, its tics grow by exactly the ticks it ran for and its cs by exactly the times it was given the processor |
| KernelAccounts.TicksAddUp | sched.c:188-195 | every tick of a run is charged to exactly one task |
| KernelOutcomes.NiceAnswers | sys.c:339-348 | -EINVAL for a quantum that is not positive; else the quantum before, so that a second call answers with the first one's argument, and nothing but the quantum changes |
| KernelScheduling.ForkRank | sys.c:129 | a successful fork puts the child in front of everybody ready |
| KernelScheduling.RankPositive | sched.c:199-201 | a ready task is at least one tick away |
| KernelScheduling.BoundedWait | sched.c:188-246 | over any run without a dispatch of the task, ticks passed plus distance left are at most the distance at the start plus what forks added |
| KernelScheduling.DispatchedInTime | sched.c:238-246 | a ready task runs within as many ticks as its distance and what the forks of the run add |
| KernelScheduling.NoForkNoCost | sched.c:238-246 | without forks nothing is added |
| KernelWaiting.Starves | sys.c:129 | with forks there is no bound: from any state in which the running process can fork and has two ticks of a quantum of at least two, for every k some run has k ticks and never dispatches a given ready task |
| KernelWaiting.StarvingReached | sys.c:129 | such a state is reached from boot, with task 0 the one that starves |
| KernelWaiting.ExitHands | sys.c:71-74 | after exit the task at the front of runqueue runs, with a full quantum |
| KernelStarvation.StepScene | sched.c:188-246 | while a ready task is not dispatched every entry does one of five things: changes nobody before it, passes the processor on, takes a tick, frees a slot, or forks in front of it |
| KernelStarvation.WaitEnds | sched.c:188-246 | if the free slots and the processes other than task 0 that run before a ready task are at most one together, the ticks of any run without it are bounded by a number known at its start |
| KernelStarvation.CanStarve | sys.c:129 | if they are two or more, some run gets, without it, to a state from which it starves |
| KernelStarvation.StarvationIff | sched.c:188-246 | so, in every state: a ready task can be kept waiting without bound if and only if they are two or more |
| KernelSemaphores.UnitsConserved | sys.c:291-319 | over any run in which the semaphore stays in use, value = start + signals - waits granted, queue length = start + waits - granted, and a value that was not negative stays so |
| KernelSemaphores.NoLostWakeup | sys.c:291-319 | tasks wait only while the value is exactly 0 |
| KernelSemaphores.InitStarts | sys.c:279-289 | a fresh semaphore has no waiters and the value asked for, if and only if that is below 2^31 |
| KernelOutcomes.InitAnswers | sys.c:279-289 | 0 if and only if the number is in range and the semaphore free, whatever the value; the caller then owns it; -EINVAL or -EBUSY change nothing |
| KernelOutcomes.WaitAnswers | sys.c:291-303 | -EINVAL for a semaphore not in use and -EPERM for task 0, nothing changed; else 0 with a unit taken if there is one, or no result yet, the caller blocked and last in the queue and the next task running |
| KernelOutcomes.SignalAnswers | sys.c:305-319 | -EINVAL for a semaphore not in use, nothing changed; else 0, with a unit added or the first waiter ready with 0, and nothing else changed |
| KernelOutcomes.DestroyAnswers | sys.c:321-337 | -EINVAL, or -EPERM for anybody but the owner, change nothing; for the owner 0, the semaphore given up, its waiters, in order, at the end of runqueue with -1, and nothing else changed |
| KernelOutcomes.OwnerOnly | sys.c:321-337 | whatever the entry: a semaphore in use stops being so if and only if its owner destroys it or exits |
| KernelSemaphores.SignalStep | sys.c:305-319 | a signal adds a unit, or makes the first waiter ready with result 0 and leaves the others in order |
| KernelSemaphores.WaitStep | sys.c:291-303 | a wait takes a unit or queues the caller last, leaving the others alone |
| KernelSemaphores.OtherStep | sys.c:279-337 | every other entry leaves the semaphore, its queue and its waiters as they are, or gives it up |
| KernelSemaphores.WaiterStep | sys.c:299-337 | what one entry does to a waiter: nothing, one place nearer, ready with result 0, or, when the semaphore is given up by destroy or its owner's exit, ready with result -1 |
| KernelSemaphores.WaiterKeepsPlace | sys.c:305-319 | over a run, a waiter's saved result is not touched before its turn |
| KernelSemaphores.WokenInOrder | sys.c:305-319 | the waiter at position p is woken by exactly the (p+1)st signal, its result written in that step |
| KernelReturns.WaitComesBack | sys.c:291-337 | the whole of a wait that blocks behind p others: when it next runs the caller has result 0 if the semaphore stayed in use until the (p+1)st signal, -1 if it was given up before |
| KernelWaiting.StepSaved | sched.c:213-220 | no entry writes the saved result of a ready task, the one that dispatches it included |
| KernelWaiting.ResultKept | sched.c:213-220 | so a task runs again with the result it was woken with |
| KernelKeyboard.StepAccounted | interrupt.c:288-317 | every entry's effect on buffer and readers is accounted for, and the test for exactly enough characters is not missed |
| KernelKeyboard.Delivery | interrupt.c:288-317 | over any disciplined run, the bytes found by the served readers, one after the other, are what was in the buffer and typed; readers are served in the order they asked, each at the address and with the length asked for |
| KernelTransfers.ReadAnswers | devices.c:84-103 | -EPERM for task 0; if nobody waits and the buffer holds enough, the oldest characters go to exactly the addressed bytes and their number is the result; else no result yet, the wish noted, the caller blocked and last among the readers |
| KernelTransfers.KeyAnswers | interrupt.c:288-317 | a character is saved unless the buffer is full; exactly when that makes what the first reader waits for, the bytes go to exactly where it wanted them and it is ready with their number, or 0 from a full buffer; nothing else changes |
| KernelTransfers.StoreAnswers | sched.c:120-125 | a store of the running task writes its one byte, and no other byte of memory changes |
| KernelReturns.ReaderComesBack | interrupt.c:314-316 | a served reader next runs with the number of characters it asked for as its result, or 0 if it asked for all the buffer holds |
| KernelKeyboard.DeliveredSeen | interrupt.c:295-317 | a delivery puts the whole buffer where the reader wanted it and returns its length |
| KernelKeyboard.ReadSeen | devices.c:90-93 | a read that need not wait gets the oldest characters |
| KernelKeyboard.FullStays | interrupt.c:288-337 | no entry changes a full buffer |
| KernelKeyboard.FullForever | interrupt.c:288-337 | nor does any run |
| KernelReached.FullReached | interrupt.c:288-290 | from boot, as many key presses as the buffer holds leave it full after any further run |
| KernelKeyboard.FullReadsNothing | devices.c:90-93 | a read from a full buffer returns 0, and still overwrites as many bytes as were asked for with what the system buffer held |
| KernelKeyboard.MissedForever | interrupt.c:293-317 | once the first reader wants more than the buffer holds, or no more than was there when it came to the front, nobody in the queue is ever served again |
| KernelKeyboard.ServedByKeys | interrupt.c:293-317 | otherwise the first reader is served by exactly as many key presses as it lacks characters; that empties the buffer, or leaves it full for good if it asked for all it holds |
| KernelKeyboard.UnservableStays | interrupt.c:293-317 | a reader behind one that can never be served, or with a wish that can never be met, stays so, step by step |
| KernelKeyboard.AllServed | interrupt.c:293-317 | any other reader is served, with everybody before it, by key presses alone |
| KernelKeyboard.StuckIff | interrupt.c:295 | so, for a reader at any position: it is in the queue after every run if and only if the condition on it and those before it (`Servable`) fails |
| KernelReached.StuckReached | devices.c:95-100 | from boot, the first child asks for one character more than the buffer holds, and is in the queue after any further run |
| KernelIsolation.OthersUntouched | sched.c:120-125 | an entry changes the data of no live task but the one it writes for |
| KernelIsolation.StoreSeen | sched.c:120-125 | a task's own store changes exactly the addressed byte of what it sees |
| KernelIsolation.ForkCopy | sys.c:89-112 | the child gets a page-by-page copy of the parent's data in frames of its own |
| KernelIsolation.DataKept | sched.c:120-125 | over any run, forks, exits and stores of others included, a task not written for sees the same data |
| KernelCode.Kernel.Start | system.c:89-114 | the initialisations leave the boot state |
| KernelCode.InitTaskStructs | sched.c:67-80 | every slot but 0 is pushed onto freequeue, the last one first |
| KernelCode.Kernel.InitTask0 | sched.c:82-111 | task 0's pages, entry in runqueue and quantum |
| KernelCode.Kernel.SchedPause | sched.c:207-211 | current goes to the end of runqueue, ready |
| KernelCode.Kernel.SchedContinue | sched.c:213-220 | the head of runqueue gets the processor, a fresh quantum and the data window |
| KernelCode.Kernel.SchedBlock | sched.c:222-226 | current goes to the end of a wait queue, blocked |
| KernelCode.Kernel.SchedUnblock | sched.c:228-235 | a waiter goes to the end of runqueue, ready, with its saved result set |
| KernelCode.Kernel.Sched | sched.c:238-246 | performs the clock step |
| KernelCode.Kernel.SysNice | sys.c:339-348 | performs the nice step and returns the quantum before |
| KernelCode.Kernel.SysSemInit | sys.c:279-289 | performs the initialisation step, errors included |
| KernelCode.Kernel.SysSemWait | sys.c:291-303 | performs the wait step, errors included |
| KernelCode.Kernel.SysSemSignal | sys.c:305-319 | performs the signal step, errors included |
| KernelCode.Kernel.WakeAllWaiters | sys.c:330-334 | the loop ends, having moved all waiters, in order, to the end of runqueue with the same result |
| KernelCode.Kernel.SysSemDestroy | sys.c:321-337 | performs the destroy step, errors included |
| KernelCode.Kernel.SysReadKeyboard | devices.c:84-103 | performs the keyboard read step |
| KernelCode.Kernel.FlushFull | interrupt.c:318-337 | the branch for a full buffer changes nothing at all |
| KernelCode.Kernel.KeyboardRoutine | interrupt.c:288-338 | performs the key step, from the translated character on |
| KernelCode.Kernel.CopyDataPages | sys.c:93-109 | the loop, including its failing branch, is the copying function |
| KernelCode.Kernel.CleanUp | sys.c:96-103 | the clean-up loop as written, which frees the slot it could not fill as well |
| KernelCode.Kernel.SysFork | sys.c:78-132 | performs the fork step |
| KernelCode.Kernel.ReleasePages | sys.c:51-54 | closes the copying window and frees exactly the task's frames |
| KernelCode.Kernel.DestroyOwnedSems | sys.c:58-62 | gives up exactly the semaphores the task owns |
| KernelCode.Kernel.SysExit | sys.c:42-76 | performs the exit step |
| KernelCode.Kernel.Enter | interrupt.c:96-98 | any entry is one step of the state machine, result included, and keeps lists, memory, ring and invariant well-formed |
| KernelCode.Kernel.Execute | interrupt.c:96-98 | any run of entries is a run of the state machine |
| KernelCode.BootAndRun | system.c:70-126 | booting and then running any entries ends in the state of the model's run from the boot state |

## Left out

- FatFiles.FatFs.Create: names, `opens`, `fops` and `block_count` are not modelled beyond what the call leaves alone.
- FatFiles.FatFs.Unlink: requires a file number that is not negative and not `MAX_FILES`; the range test in the source lets both through to entries outside the array.
- FatFiles.FatFs.Write: file numbers in range and offsets not negative are required of the caller; `FatRefinement.WriteRefines` further takes `offset <= size`, since beyond that "past the end" and "one past the last block" are not told apart.
- FatRuns.Execute: calls name existing files and write at offsets up to the size (`Allowed`; `ExecuteAny` is about all others), and `opens` is 0 for every file, as formatting leaves it and no code of `fat.c` changes.
- KernelKeyboard.Delivery: for runs of reads of 1 to `CIRC_BUFF_SIZE - 1` characters in which the ring does not fill up; the other cases are `FullForever`, `FullReadsNothing` and `StuckIff`.
- KernelCode.Kernel.SysReadKeyboard: the range test of `access_ok`, made by `sys_read` before the call, is its precondition; user data addresses are counted from the start of the data window.
- KernelSemaphores.UnitsConserved: counts in unbounded integers; overflow of semaphore values by signals is not modelled, nor is overflow of pids, tick counters and quanta.
- MemoryManager.Memory.CopyToUser: moves bytes, where the source moves words and then the rest; page copies are moved whole.
- MemoryManager.Memory.constructor: the page directory, access bits and TLB flushes are not modelled.
- KernelCode.Kernel.Start: memory and the ring buffer are initialised by the constructors of their classes, before the lists; the file system, a separate part of the model, is initialised on its own.
- KernelCode.Kernel.SysFork: the child's file channels are not copied (sys.c:121-124), and of the kernel stack only the saved eax is modelled.
- KernelCode.Kernel.SysExit: open file channels are not closed (sys.c:64-69).
- KernelCode.InitTaskStructs: the slots' file channels are not cleared (sched.c:76-78).
- KernelCode.Kernel.InitTask0: task 0's file channels are not set up (sched.c:99-104).
- KernelCode.Kernel.SchedContinue: the change of stack and registers in `task_switch` is modelled as setting the current task and the data window.
- File descriptors, dynamic channels, open, close, dup and the use counts of files: no honest ownership invariant holds there.
- Path names, directory lookup, number formatting and string helpers: easy, and apart from the invariants.
- `sys_getpid` and console output, which read the state or write to the screen, and `sys_get_stats`, which copies a task's counters into the caller's memory (sys.c:350-366).
- A page fault is an exit of the running task; at task 0 the source halts, and here nothing happens.
- Scan code translation, the clock display, interrupt tables, segment setup, the boot sector, user code and hardware access.
- The store of a returning call's value into the caller's eax (in `entry.S`) is left to the outcome of each step.
