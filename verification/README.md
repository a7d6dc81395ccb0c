# Proofs about an xv6 with a redo log, stride and MLFQ scheduling, threads and semaphores

This project models the kernel and user-library code of HYU-ELE3021 (a fork of xv6 for x86, in
C) whose correctness is hard to see from any one function, and proves what that code promises.
`dafny verify dfyconfig.toml` checks all of it.

The model has five parts.

* **Redo log and buffer cache** (log.c, bio.c). `RedoLog` has the block writes of commit and of
  recovery and what a stop between any two of them leaves. `LogMachine` is the whole log layer as a
  state machine with any number of operations, a cache that may recycle clean buffers at any time,
  and crashes anywhere. `LogCapacity` decides when log_write can panic. `LogOnDisk` is the code on
  the flat disk with its header block, loop by loop, proved to issue exactly the writes of
  `RedoLog`. `BufferCache` is the LRU cache on its linked list.
* **Files** (fs.c, file.c). `Blocks`, `Bitmap` and `BlockTree` are bytes and words, the free-block
  bitmap and the trees of indirect blocks. `FileIndex` has the slots of an inode, and `BlockNeed` and
  `FileNeed` count the blocks that a file lacks. `FileSystem` has balloc, bfree, bmap, itrunc, readi and
  writei on all inodes of one disk; `FileOps` has fileread and filewrite with its chunks.
  `CrashConsistency` puts calls of the file system on top of the log.
* **Semaphores and locks** (xem.c, futex.c, uthread.c). `RingQueue` is the ring of waiting threads,
  `Semaphore` the semaphore one machine step at a time, proved to move its permit as the atomic
  first-come-first-served semaphore of `Fcfs` does, whoever of its users unlocks it; `RwLock` is the
  readers-writer lock over three of those, `RwSeam` shows that its runs use them as `Fcfs` allows, and
  `GuardedFile` is the guarded pread and pwrite.
* **Scheduling and threads** (proc.c, thread.c, list.h). `MinHeap`, `Stride` and `StrideTable` are
  the heap, the stride scheduler as a machine over slices, and its code on the heap array. `Lists`,
  `Mlfq`, `MlfqRuns` and `MlfqTable` are the queues with their pins, the machine over slices, its
  whole runs from userinit on, and its code; `MlfqCpus` is mlfqselect while other CPUs run threads.
  `ThreadGroup` has slots, thread ids, stacks and join links. `ListHead` has the circular lists,
  pointer by pointer.
* **Memory** (umalloc.c, vm.c, kalloc.c). `FreeList` and `Malloc` are malloc and free; `PageTables`
  and `Vm` are page tables, growth and shrinking of an address space, and fork's copy of one.
  `FrameCount` and `CopyPlan` count the frames that these take.

Code that changes state is a class or a method with loops, proved against functions on values; what
the source promises is proved about those functions and over all runs of a machine made of them.
State that concurrent threads share is a machine whose steps are the atomic sections of the code.

Where a promise turns out not to hold of the code, the code is kept and the exact condition is
proved:

* log_write's "too big a transaction" panic can be reached by operations that add log entries only
  within their reservation. A new entry meets it in some run exactly if the log has at most LOGSIZE
  blocks, header included (`LogCapacity.CapacityExact`); mkfs.c:25 makes a log of LOGSIZE blocks.
  Writing a block that is already logged meets it in some run whatever the size, because the test
  comes before the search for the block (`LogCapacity.AbsorbedPanic`). A given call panics exactly
  if LOGSIZE or size - 1 entries are in use, and with more than LOGSIZE blocks that is exactly a
  full log, with every reservation used up (`LogCapacity.PanicExactly`).
* queue_add fails, and leaves the guard set for good, exactly if a semaphore has more than 64 users
  (`Semaphore.QueueFullExactly`).
* A wake-up is lost exactly if the head of the queue compares its slot between futex_wake and
  queue_remove, in one step (`Semaphore.AwakeUnlessRace`) and over every run
  (`Semaphore.AwakeExactly`); it can happen with two threads (`Semaphore.LostIsReachable`) and is then
  never made good (`Semaphore.LostForever`).
* stridelogic's overflow handling keeps the gaps between passes if the MLFQ is charged; if a stride
  process is charged it does exactly if it changes nothing (`Stride.RenormalisedGaps`). A run from
  boot gets there (`Stride.GapLost`).
* mlfqselect returns a ready thread of the highest level that has one exactly if the thread that it
  looks at there, the pinned one or the first of the queue, does not run on another CPU. If that one
  runs and is pinned, it is returned; if it runs and no thread is pinned, the level is passed over
  (`MlfqCpus.ChoiceExactly`). A state for either is in `MlfqCpus.RunningChosen` and
  `MlfqCpus.ReadyPassedOver`.
* A malloc result has room for the request exactly if rounding it up does not wrap, and sbrk is
  asked for the right amount exactly if that is below 2^31 bytes (`Malloc.RoomExactly`,
  `Malloc.AskedExactly`); else, if no free block fits and sbrk does not refuse, malloc goes on with
  memory that it has not got (`Malloc.Allocator.Malloc`).
* allocuvm restores the mappings when memory runs out exactly if nothing was mapped in the range
  that it was to fill; it panics exactly if such a page is there and the free frames last up to it
  (`Vm.Machine.AllocUvm`). A memory where it takes a page away is in `Vm.RollBackLoses`.

## Model

| member | source | states |
|---|---|---|
| `RedoLog.CommitAtomic` | xv6-public/log.c:177-202 | After any number of the block writes of commit, what replaying the log yields is all old or all new, with the header write as the only turning point |
| `RedoLog.CommitOutside` | xv6-public/log.c:69-82 | No home block outside the transaction ever changes during commit |
| `RedoLog.RecoveryAtomic` | xv6-public/log.c:115-122 | Recovery stopped after any number of writes neither loses nor adds anything durable, and when complete leaves every home block at its durable content |
| `RedoLog.InstallPartly` | xv6-public/log.c:69-82 | Installing any part of the logged blocks changes nothing durable |
| `RedoLog.InterruptedKeeps` | xv6-public/log.c:115-122 | Any number of interrupted recoveries in a row changes nothing durable |
| `RedoLog.CrashAtomicity` | xv6-public/log.c:69-122 | Stop commit anywhere, interrupt recovery any number of times, let it finish: the home blocks hold all of the old or all of the new contents, never a mixture |
| `LogMachine.Keep` | xv6-public/log.c:124-233 | Every step of the log layer, crashes and cache recycling included, keeps disk, cache, header and history consistent |
| `LogMachine.ReadersSee` | xv6-public/bio.c:78-91 | Outside recovery, readers see exactly the committed groups followed by the pending writes |
| `LogMachine.OneGroupPerOperation` | xv6-public/log.c:145-174 | The writes of one operation all fall into one commit group or are all still pending |
| `LogMachine.RunsAreAtomic` | xv6-public/log.c:124-233 | Over every run with crashes anywhere, the disk replays to the committed groups in order; the "log.committing" panic is not reached and an open operation excludes a commit |
| `CrashConsistency.RecoversRest` | xv6-public/log.c:145-202 | Over every run with crashes anywhere, the disk replays to what it held at the start or to what the file system saw at a moment when no operation was open |
| `CrashConsistency.RecoversAny` | xv6-public/log.c:9-22 | Whatever holds of the blocks at the start and at every such moment holds after every recovery, which leaves the committed groups |
| `CrashConsistency.CrashConsistent` | xv6-public/log.c:9-22 | Over every run of groups of writei and itrunc calls, with crashes anywhere, the files that a recovery finds are in order and have the contents that the calls of the committed groups, one after another, make of those at the start |
| `LogCapacity.KeepReserved` | xv6-public/log.c:125-141 | Logged blocks plus the unused reservations of open operations never exceed LOGSIZE, however often logged blocks are written again |
| `LogCapacity.PanicExactly` | xv6-public/log.c:213-232 | After any run of operations that add at most MAXOPBLOCKS entries each, the next log_write panics if and only if LOGSIZE or size - 1 entries are in use; in a full log every operation has used up its reservation and the block is logged already; with more than LOGSIZE blocks a new entry never panics |
| `LogCapacity.CapacityExact` | xv6-public/log.c:213-220 | Some run panics at a new entry within the reservation if and only if the log area has at most LOGSIZE blocks |
| `LogCapacity.AbsorbedPanic` | xv6-public/log.c:218-226 | Some run panics at writing a block that is already logged if and only if the log area has a slot at all |
| `LogOnDisk.SplitHead` | xv6-public/log.c:84-113 | Writing the header block changes the decoded header and nothing else |
| `LogOnDisk.Log.WriteHead` | xv6-public/log.c:101-113 | The header block then decodes to the in-memory header, by one block write |
| `LogOnDisk.Log.ReadHead` | xv6-public/log.c:85-96 | The in-memory header is the one on the disk: the inverse of WriteHead |
| `LogOnDisk.Log.WriteLog` | xv6-public/log.c:177-190 | Issues exactly the slot writes, in order, of the cached contents |
| `LogOnDisk.Log.InstallTrans` | xv6-public/log.c:69-82 | Issues exactly the home writes, in order, and unpins those buffers |
| `LogOnDisk.Log.Commit` | xv6-public/log.c:192-202 | The block writes issued are the write sequence that crash atomicity is proved of |
| `LogOnDisk.Log.RecoverFromLog` | xv6-public/log.c:115-122 | The block writes issued are the recovery sequence that crash atomicity is proved of |
| `LogOnDisk.Log.BeginOp` | xv6-public/log.c:125-141 | An operation starts if and only if no commit runs and its reservation fits |
| `LogOnDisk.Log.EndOp` | xv6-public/log.c:145-174 | The last operation commits the whole group, any other writes nothing, and the panic is reached only during a commit |
| `LogOnDisk.Log.LogWrite` | xv6-public/log.c:213-233 | A block is logged once however often it is written, its last contents are pinned, and the two panics are exactly told |
| `BufferCache.Recycle` | xv6-public/bio.c:78-91 | Recycling a buffer that is unreferenced and clean loses no contents of any block |
| `BufferCache.Written` | xv6-public/bio.c:109-116 | Writing a buffer out keeps every block's last contents reachable |
| `BufferCache.Released` | xv6-public/bio.c:9-19 | Letting go of a buffer keeps every block's last contents reachable, except those of a block that was changed and neither written nor logged |
| `BufferCache.Changed` | xv6-public/bio.c:9-19 | A holder's change makes exactly its block's last contents the new ones |
| `BufferCache.Cache.constructor` | xv6-public/bio.c:38-56 | The linked list is a permutation of all buffers and no block is cached |
| `BufferCache.Cache.Lookup` | xv6-public/bio.c:66-76 | The walk along next finds the buffer of a block if and only if there is one |
| `BufferCache.Cache.FindUnused` | xv6-public/bio.c:78-91 | The walk along prev finds the least recently used buffer not in use, or that there is none |
| `BufferCache.Cache.Bget` | xv6-public/bio.c:61-93 | At most one buffer per block of the file-system device; referenced or dirty buffers keep their block and data; panics if and only if the block is not cached and all buffers are in use |
| `BufferCache.Cache.Fill` | xv6-public/bio.c:96-106 | bread yields the last contents given to the block, unless a holder let them go unwritten |
| `BufferCache.Cache.Bwrite` | xv6-public/bio.c:109-116 | The disk block equals the buffer and the cache stays coherent |
| `BufferCache.Cache.MarkDirty` | xv6-public/log.c:228-232 | A buffer marked by log_write stays the holder of its block's last contents |
| `BufferCache.Cache.Brelse` | xv6-public/bio.c:120-141 | The list stays a permutation; a buffer nobody references any more moves to its front and the others keep their order; a change that was neither written nor logged is what the cache no longer answers for |
| `Blocks.SetWord` | xv6-public/fs.c:402-409 | Storing a 32-bit word in a block changes that word's value and no other |
| `Bitmap.Mark` | xv6-public/fs.c:66-70 | Exactly the given block becomes used |
| `Bitmap.Clear` | xv6-public/fs.c:88-93 | Exactly the given block becomes free |
| `Bitmap.FindFree` | xv6-public/fs.c:57-79 | Finds the lowest free block, or that all are used |
| `BlockTree.Frame` | xv6-public/fs.c:363-372 | A block tree depends on its own indirect blocks only |
| `BlockTree.LookInjective` | xv6-public/fs.c:374-453 | Distinct indexes of a tree reach distinct data blocks |
| `BlockTree.GrowChild` | xv6-public/fs.c:395-450 | If one subtree grows by new blocks, the tree stays well formed, grows by just those and changes no other index |
| `BlockNeed.PavedUp` | xv6-public/fs.c:395-450 | If the way through one child is completed and the others stay, what is missing on the way to any index is what was missing below where the two ways meet |
| `FileNeed.PavedPlaces` | xv6-public/fs.c:373-453 | Completing the way to one file block fills exactly the places missing on it, for every other file block too |
| `FileNeed.LackingPlaced` | xv6-public/fs.c:598-604 | What a range of file blocks lacks after some places are filled is what it lacked before, less those |
| `FileSystem.MapsInjective` | xv6-public/fs.c:374-453 | No data block is mapped twice, by one inode or by two |
| `FileSystem.MappedNotInner` | xv6-public/fs.c:363-372 | A mapped data block is never an indirect block of any inode |
| `FileSystem.LacksNone` | xv6-public/fs.c:373-453 | A range of file blocks lacks nothing if and only if each of them is mapped |
| `FileSystem.OverwriteLacks` | xv6-public/fs.c:582-612 | Writing over bytes that a file has needs no block |
| `FileSystem.FS.Balloc` | xv6-public/fs.c:57-79 | Hands out a block that was free, zeroed, and nothing else changes; fails only if all blocks are used |
| `FileSystem.FS.Bfree` | xv6-public/fs.c:82-96 | Frees exactly one block; the "freeing free block" panic is told exactly |
| `FileSystem.FS.Walk` | xv6-public/fs.c:395-450 | The descent through indirect blocks completes the way to one index and to no other, with as many blocks as are missing on it, and repeats without change |
| `FileSystem.FS.Bmap` | xv6-public/fs.c:373-453 | Gives a nonzero allocated block, the same on a second call without any change, keeps every other mapping of every inode, and allocates only free, zeroed blocks; panics if and only if fewer are free than are missing on the way, and else takes exactly those |
| `FileSystem.FS.Itrunc` | xv6-public/fs.c:460-536 | Frees exactly the blocks reachable through all four levels, each once, keeps every other inode's bytes, and leaves addresses and size zero |
| `FileSystem.FS.Readi` | xv6-public/fs.c:553-577 | Returns the exact slice of the file's bytes, never allocates, and the error cases are exactly told |
| `FileSystem.FS.WriteChunk` | xv6-public/fs.c:598-604 | One block's share of a write adds exactly those bytes to what is written so far |
| `FileSystem.FS.Writei` | xv6-public/fs.c:582-612 | Splices the source into the file's bytes, leaves every other file's bytes, keeps files without holes, and the error cases are exactly told; panics if and only if fewer blocks are free than the data and indirect blocks missing in the range, and else takes exactly those |
| `FileOps.FileWriteIs` | xv6-public/file.c:121-166 | A write in chunks equals one splice of a prefix of the data, all of it if and only if the offset is not past the end and the result fits the maximum size |
| `FileOps.File.FileRead` | xv6-public/file.c:96-117 | Reads the slice at the shared or the given offset; only the shared one moves, by what was read |
| `FileOps.File.FileWrite` | xv6-public/file.c:121-166 | The loop of transactions does what FileWriteIs characterises, moves only the shared offset, and other files keep their bytes; panics if and only if fewer blocks are free than are missing for the bytes that it is to write |
| `RingQueue.AddAppends` | xv6-public/xem.c:25-39 | queue_add appends to the waiting threads and moves no one's slot |
| `RingQueue.RemoveDrops` | xv6-public/xem.c:47-52 | queue_remove drops the first waiting thread and moves no one's slot |
| `RingQueue.Queue.constructor` | xv6-public/xem.c:9-17 | An empty queue |
| `RingQueue.Queue.Empty` | xv6-public/xem.c:19-23 | Tells whether nobody waits |
| `RingQueue.Queue.Enqueue` | xv6-public/xem.c:25-39 | Appends, or fails without change if and only if 63 threads wait |
| `RingQueue.Queue.Dequeue` | xv6-public/xem.c:47-52 | Drops the first waiting thread |
| `Semaphore.Keep` | xv6-public/xem.c:64-106 | Every machine step of every thread keeps guard, queue, ownership, count and order consistent |
| `Semaphore.KeepHand` | xv6-public/xem.c:89-106 | So does passing the duty to unlock to a thread that is not waiting |
| `Semaphore.FutexReturn` | xv6-public/futex.c:14-31 | futex_wait returns at once only to a thread that has been handed the permit |
| `Semaphore.SemaphoreSafe` | xv6-public/xem.c:64-106 | Over every interleaving, whoever unlocks: one thread at most is to unlock, and its duty has come to it from the thread granted the permit last; count is one minus holder minus queue between guard sections, waiting implies a holder, and permits pass in order of arrival |
| `Semaphore.PermitStep` | xv6-public/xem.c:64-106 | The decrement is an atomic first-come-first-served wait, the increment an atomic unlock by whoever has the duty, and no other step moves the permit or the order of those who wait |
| `Semaphore.Linearises` | xv6-public/xem.c:64-106 | Every interleaving of machine steps, with the duty to unlock passed on at will, moves the permit as its waits and unlocks, each at one instant, would |
| `Semaphore.QueueFullExactly` | xv6-public/xem.c:25-39 | queue_add can fail if and only if there are more than 64 users |
| `Semaphore.LostForever` | xv6-public/xem.c:99-103 | A lost wake-up is never made good: the semaphore stays with a sleeping owner in every continuation |
| `Semaphore.LostIsReachable` | xv6-public/xem.c:99-103 | Two threads can lose a wake-up |
| `Semaphore.AwakeUnlessRace` | xv6-public/xem.c:99-103 | A step loses a wake-up if and only if the head of the queue compares between futex_wake and queue_remove |
| `Semaphore.AwakeExactly` | xv6-public/xem.c:64-106 | Over every interleaving from initialisation a wake-up is lost, or about to be, if and only if the head of the queue has compared in that window |
| `RwSeam.WrtStep` | xv6-public/xem.c:119-160 | The call on wrt that a step of the readers-writer lock makes, if it makes one, is allowed and does to wrt what the step does, with at most a passing on of the duty to unlock besides; the duty stays with a counted reader or with the last one on its way |
| `RwSeam.AllowedUse` | xv6-public/xem.c:107-160 | Over every interleaving from initialisation the calls that the run makes on each of the three semaphores, in order, are calls that the semaphore allows and lead to where it is; on wrt once the passing on of the duty to unlock is put in between, although the last reader unlocks what the first one waited on |
| `RwLock.FirstReaderNeverWaits` | xv6-public/xem.c:119-134 | The first reader's wait on wrt never blocks |
| `RwLock.Exclusion` | xv6-public/xem.c:119-160 | A writer excludes all readers and other writers |
| `RwLock.NoDeadlock` | xv6-public/xem.c:119-160 | If a thread is inside an operation, some thread inside an operation can move |
| `RwLock.NoOvertaking` | xv6-public/xem.c:119-141 | Threads enter in the order in which they asked, readers and writers alike |
| `RwLock.LockSafe` | xv6-public/xem.c:107-160 | All of these over every interleaving from initialisation |
| `GuardedFile.ReadsSeeWholeWrites` | xv6-public/uthread.c:21-42 | Every guarded read equals the slice of the file after some number of whole guarded writes, although a write is several transactions |
| `GuardedFile.KeepChunkStep` | xv6-public/file.c:130-158 | In the middle of a guarded write, what is still to come completes it to the whole write |
| `MinHeap.RootIsLeast` | xv6-public/proc.c:138-143 | The root of the heap has the least pass |
| `MinHeap.PushHeap` | xv6-public/proc.c:154-166 | Keeps heap order and adds exactly the pushed entry |
| `MinHeap.PopHeap` | xv6-public/proc.c:176-196 | Returns an entry of least pass, keeps heap order and exactly the others |
| `Stride.KeepTickets` | xv6-public/proc.c:94-128 | Every step keeps the ticket total at 100 and the MLFQ at its reserve |
| `Stride.FewStrideProcesses` | xv6-public/proc.c:94-128 | There are never more than 80 stride processes |
| `Stride.TicketsConserved` | xv6-public/proc.c:815-819 | The ticket total is conserved over every run, exits included |
| `Stride.NoOverflow` | xv6-public/proc.c:960-996 | Over every run no pass is negative or comes near 2^31, and whoever runs has the least pass |
| `Stride.PassPerCharge` | xv6-public/proc.c:984-996 | Over a run with fixed tickets, a pass grows by stride times the number of charges |
| `Stride.CloseOverRun` | xv6-public/proc.c:984-996 | Over every run below the barrier all passes stay within 1000 of each other |
| `Stride.Fairness` | xv6-public/proc.c:1019-1050 | From any state with close passes, below the barrier, charges times stride of any two entities differ by at most 2000 |
| `Stride.FairFromBoot` | xv6-public/proc.c:1019-1050 | Over any interval of any run from boot below the barrier, charges times stride of any two entities with fixed tickets differ by at most 2000 |
| `Stride.RenormalisedGaps` | xv6-public/proc.c:969-983 | Overflow handling keeps all gaps if the MLFQ is charged, and for a stride process if and only if its pass is not above the barrier |
| `Stride.GapLost` | xv6-public/proc.c:969-983 | A run from boot charges a stride process above the barrier, and its gap to the MLFQ is lost |
| `StrideTable.Room` | xv6-public/scheduler.h:19-23 | The heap array never overflows |
| `StrideTable.Table.GetMinPass` | xv6-public/proc.c:138-143 | A lower bound of all queued passes, reached by one of them |
| `StrideTable.Table.Select` | xv6-public/proc.c:1019-1022 | The selection on the heap array is the machine's: least pass, the MLFQ at a tie |
| `StrideTable.Table.SetCpuShare` | xv6-public/proc.c:94-128 | Refuses without change exactly the shares that break the reserve; else the process has its share and enters at the least pass |
| `StrideTable.Table.Exit` | xv6-public/proc.c:815-819 | An exiting stride process gives its tickets back |
| `StrideTable.Table.MoveBack` | xv6-public/proc.c:972-974 | The loop over the heap moves back exactly the queued processes, each once |
| `StrideTable.Table.StrideLogic` | xv6-public/proc.c:960-996 | Charges, renormalises and pushes as the machine's step does, with heap order and contents kept |
| `Lists.RemoveAllOk` | xv6-public/proc.c:50-56 | Taking a process off a queue keeps the rest, distinct and grouped by process |
| `Lists.InsertAfterOk` | xv6-public/proc.c:288-305 | Adding a thread after one of its process keeps threads of a process side by side |
| `Lists.AppendOk` | xv6-public/list.h:123-137 | Concatenating queues without a common process keeps the grouping |
| `Mlfq.NoPinPanic` | xv6-public/proc.c:222-276 | A pinned process always has a thread that is ready or running |
| `Mlfq.PinNextThreadIs` | xv6-public/proc.c:222-242 | The moved pin is the list head or a thread of the same queue, not the thread that leaves, and no other pin moves |
| `Mlfq.PinNextProcIs` | xv6-public/proc.c:252-276 | The moved pin is the list head or a thread of the same queue of another process, and no other pin moves |
| `Mlfq.DequeueProcIs` | xv6-public/proc.c:380-385 | Exactly the threads of one process leave one queue |
| `Mlfq.EnqueueThreadIs` | xv6-public/proc.c:288-305 | The queue holds exactly the active threads of its level again, grouped by process |
| `Mlfq.EnqueueProcIs` | xv6-public/proc.c:319-333 | The same when a whole process is added |
| `Mlfq.SelectIs` | xv6-public/proc.c:880-911 | The thread selected is runnable and of the highest level that has any, and the panic is not reached |
| `MlfqCpus.SelectFromIs` | xv6-public/proc.c:880-911 | With any number of CPUs queues and pins stay right, the panic is not met, the thread is the candidate of the first level that is neither empty nor passed over for a running candidate, it is pinned there, and exactly the levels passed over lose their pin |
| `MlfqCpus.MovedExactly` | xv6-public/proc.c:222-242 | From a running candidate the pin moves to a ready thread if and only if the candidate was pinned and its queue has a ready thread |
| `MlfqCpus.ChoiceExactly` | xv6-public/proc.c:880-911 | With any number of CPUs the result is a ready thread of the highest level that has one if and only if the candidate there does not run; if it runs and is pinned it is the result, if it is not pinned the level is passed over; with nothing ready, the result is none |
| `MlfqCpus.PassedOverExactly` | xv6-public/proc.c:896-906 | A level with a ready thread is passed over if and only if none is pinned there and its first thread runs |
| `MlfqCpus.ReadyUnlessElsewhere` | xv6-public/proc.c:880-911 | If no thread runs, mlfqselect takes the pinned or first thread of the highest level that is not empty |
| `MlfqCpus.RunningChosen` | xv6-public/proc.c:896-906 | A state of two CPUs in which mlfqselect returns a running thread while another is ready |
| `MlfqCpus.ReadyPassedOver` | xv6-public/proc.c:896-906 | A state of two CPUs in which mlfqselect finds nothing while a thread is ready |
| `Mlfq.AllAtTop` | xv6-public/proc.c:913-937 | After a boost every process with an active thread is at level 0, whichever of its threads were visited |
| `Mlfq.BoostedLevels` | xv6-public/proc.c:346-359 | A boost keeps queues, levels and pins consistent |
| `Mlfq.KeepInv` | xv6-public/proc.c:1139-1201 | Every step keeps: each ready or running MLFQ thread is in exactly one queue, its process's, next to its siblings, and each pin is its queue's head or member |
| `MlfqRuns.NoPanic` | xv6-public/proc.c:222-385 | No step from a consistent state ends in a panic of the pin, enqueue, select or ready_proc code |
| `MlfqRuns.LevelRule` | xv6-public/proc.c:939-958 | A level changes only by one-step demotion on exactly the allotment, or back to 0 by a boost |
| `MlfqRuns.KeepAllotted` | xv6-public/proc.c:1065-1114 | Every step keeps each process within the allotment of its level, however its threads yield and sleep |
| `MlfqRuns.InitInv` | xv6-public/proc.c:499-539 | userinit leaves a consistent state, within the allotment |
| `MlfqRuns.UserInit` | xv6-public/proc.c:533-536 | That state is what enqueue_proc makes of empty queues |
| `MlfqRuns.FirstRun` | xv6-public/proc.c:1006-1056 | A run from there in which the first process creates a thread and forks: all three threads are in the first queue and the one that runs is pinned |
| `MlfqRuns.SafeFrom` | xv6-public/proc.c:1006-1056 | Over every single-CPU run from a consistent state: no panic, and between slices each process at level 0 or 1 has used less than its allotment |
| `MlfqRuns.RunsAreSafe` | xv6-public/proc.c:1006-1056 | The same over every single-CPU run from what userinit leaves |
| `MlfqRuns.QueuesAreRight` | xv6-public/proc.c:288-385 | Over every single-CPU run from there each ready or running MLFQ thread is once in its level's queue and in no other, next to its siblings, and the pin is the list head or in the queue |
| `MlfqTable.Table.FirstThread` | xv6-public/thread.c:46-62 | The walk round the thread ring finds the first matching thread |
| `MlfqTable.Table.FindProc` | xv6-public/proc.c:58-79 | The walk round the queue finds the next runnable thread of another process |
| `MlfqTable.Table.PinNextThread` | xv6-public/proc.c:222-242 | Moves the pin as PinNextThreadIs characterises it, without a panic |
| `MlfqTable.Table.PinNextProc` | xv6-public/proc.c:252-276 | Moves the pin as PinNextProcIs characterises it, without a panic |
| `MlfqTable.Table.DequeueThread` | xv6-public/proc.c:367-372 | The list operations do the machine's dequeue |
| `MlfqTable.Table.DequeueProc` | xv6-public/proc.c:380-385 | Deleting active threads one by one does the machine's dequeue |
| `MlfqTable.Table.EnqueueThread` | xv6-public/proc.c:288-305 | The list operations do the machine's enqueue |
| `MlfqTable.Table.EnqueueProc` | xv6-public/proc.c:319-333 | Adding active threads one by one does the machine's enqueue |
| `MlfqTable.Table.MlfqSelect` | xv6-public/proc.c:880-911 | The scan over the levels, with its branch for a running thread, does what SelectFromIs characterises; between slices of one CPU it makes the machine's choice and pins it |
| `MlfqTable.Table.EndOfSlice` | xv6-public/proc.c:939-958 | Demotes, or moves the pin to the next process or thread, as the machine does |
| `MlfqTable.Table.PriorityBoost` | xv6-public/proc.c:913-937 | The loops over the lower queues and the sleep list do the machine's boost |
| `MlfqTable.Table.Sched` | xv6-public/proc.c:1065-1096 | Stays in the process unless nothing is ready or a DTQ boundary is reached |
| `MlfqTable.Table.Yield` | xv6-public/proc.c:1099-1114 | Is the machine's tick and keeps its invariant |
| `MlfqTable.Table.GoToSleep` | xv6-public/proc.c:1139-1177 | Is the machine's sleep and keeps its invariant |
| `MlfqTable.Table.WakeUp` | xv6-public/proc.c:1192-1199 | Is the machine's wake-up and keeps its invariant |
| `MlfqTable.Table.FinishSlice` | xv6-public/proc.c:1035-1043 | Is the machine's end of slice and keeps its invariant |
| `ListHead.AddIs` | xv6-public/list.h:32-62 | Linking a node in inserts it at that place of the list, next and prev agreeing |
| `ListHead.DelIs` | xv6-public/list.h:64-84 | Unlinking a node removes exactly it from the list |
| `ListHead.BulkMoveIs` | xv6-public/list.h:123-137 | Moves all of one list to the end of another and empties it |
| `ListHead.Memory.HeadInit` | xv6-public/list.h:25-30 | A list of its head alone |
| `ListHead.Memory.AddAfter` | xv6-public/list.h:43-62 | Inserts after a node and leaves every disjoint list alone |
| `ListHead.Memory.AddTail` | xv6-public/list.h:50-55 | Appends and leaves every disjoint list alone |
| `ListHead.Memory.Delete` | xv6-public/list.h:78-84 | Removes the node and leaves every disjoint list alone |
| `ListHead.Memory.BulkMoveTail` | xv6-public/list.h:123-137 | Concatenates two lists and leaves every disjoint list alone |
| `ThreadGroup.KeepInv` | xv6-public/thread.c:282-432 | Every step keeps: tids increase along the ring, stacks with guard pages descend without overlap, join links lead to earlier live threads, and the free count is right |
| `ThreadGroup.KeepExit` | xv6-public/thread.c:359-397 | A creator that exits first leaves no link to itself |
| `ThreadGroup.KeepJoin` | xv6-public/thread.c:409-432 | A joined slot is freed with no link left to it |
| `ThreadGroup.StacksApart` | xv6-public/thread.c:309-321 | Stack regions of two threads of a process have no address in common |
| `ThreadGroup.RunsAreSound` | xv6-public/proc.c:451-477 | Over every run, nproc is the length of the free list, no link leads to a free slot, and links end at the thread with tid 0 |
| `ThreadGroup.Threads.MainThread` | xv6-public/thread.c:199-205 | Terminates, at the main thread |
| `ThreadGroup.Threads.ThreadCreate` | xv6-public/thread.c:282-349 | A new tid above all of the process; fails without change if no slot or no stack is to be had |
| `ThreadGroup.HandOver` | xv6-public/thread.c:104-111 | Exactly the threads created by the one that exits are handed to the main thread |
| `ThreadGroup.Threads.ThreadExit` | xv6-public/thread.c:359-397 | Is the machine's exit and keeps its invariant |
| `ThreadGroup.Threads.GetThread` | xv6-public/thread.c:147-152 | Finds the thread of the process with a tid, or that there is none |
| `FreeList.Disjoint` | xv6-public/umalloc.c:11-22 | No two blocks, live or free, overlap |
| `FreeList.InsertOk` | xv6-public/umalloc.c:30-38 | Linking a block into its gap keeps the ring in address order |
| `FreeList.MergeOk` | xv6-public/umalloc.c:33-42 | Merging two adjacent free blocks keeps the ring in order |
| `FreeList.Conserved` | xv6-public/umalloc.c:46-61 | Free and live units together are the units obtained from morecore |
| `Malloc.RoomExactly` | xv6-public/umalloc.c:69-69 | A block has room for the request if and only if rounding up does not wrap at 2^32 |
| `Malloc.AskedExactly` | xv6-public/umalloc.c:52-54 | sbrk is asked for the block's bytes if and only if they are fewer than 2^31; else for none or a negative number |
| `Malloc.TooMuch` | xv6-public/umalloc.c:64-69 | Requests for which these fail |
| `Malloc.StopsAt` | xv6-public/umalloc.c:30-32 | free's loop stops at exactly the one entry after which the block belongs |
| `Malloc.FreedOk` | xv6-public/umalloc.c:24-44 | After free the list is in address order, fully merged, and blocks still tile the units |
| `Malloc.FreeIs` | xv6-public/umalloc.c:33-42 | free's field assignments do the insertion and the merging with either neighbour |
| `Malloc.Allocator.FindSlot` | xv6-public/umalloc.c:30-32 | The search round the ring terminates, at the block's place |
| `Malloc.Allocator.Free` | xv6-public/umalloc.c:24-44 | Exactly this block stops being live, no unit is lost, other live blocks keep their size |
| `Malloc.Allocator.Search` | xv6-public/umalloc.c:74-89 | The search round the ring terminates and finds a large enough block if and only if there is one |
| `Malloc.Allocator.Morecore` | xv6-public/umalloc.c:46-61 | The units granted join the free list and a block for the request is there; refused, nothing changes; goes astray if and only if sbrk is asked for something else than the block |
| `Malloc.Allocator.Malloc` | xv6-public/umalloc.c:63-90 | A new live block disjoint from all others, with room exactly as told; memory is obtained at most once and only if nothing fits; null if and only if that is refused; goes astray if and only if nothing fits, sbrk does not refuse and the block is of 2^31 bytes or more |
| `PageTables.SetPteOk` | xv6-public/vm.c:62-82 | Setting an entry shows at exactly one page of one address space |
| `PageTables.UnmapOk` | xv6-public/vm.c:289-299 | Clearing an entry and freeing its frame shows at exactly one page of one address space |
| `FrameCount.TakenNext` | xv6-public/vm.c:37-58 | Page by page, the frames for pages and missing page tables add up to their number |
| `CopyPlan.InListed` | xv6-public/vm.c:347-393 | The pages that fork visits are exactly those of the image and the stacks |
| `CopyPlan.VisitedShort` | xv6-public/vm.c:355-361 | If the frames run out at a page, there are fewer than the copy needs |
| `Vm.DeallocOk` | xv6-public/vm.c:278-302 | Exactly the pages of the range are unmapped and exactly their frames returned |
| `Vm.Jump` | xv6-public/vm.c:290-291 | The jump over an absent directory entry equals going on page by page |
| `Vm.Machine.DeallocUvm` | xv6-public/vm.c:278-302 | The loop with the jump equals the loop page by page |
| `Vm.RolledBack` | xv6-public/vm.c:257-269 | Shrinking back after a failure restores all mappings and pages |
| `Vm.Machine.AddPage` | xv6-public/vm.c:256-270 | One page is added with its frame and, if missing, its page table; it fails without change if and only if those frames are not free |
| `Vm.NeededIs` | xv6-public/vm.c:256-270 | With nothing in the way, growing needs a frame for each page and one for each missing page table |
| `Vm.Machine.AllocUvm` | xv6-public/vm.c:244-272 | Maps exactly the missing pages to fresh, distinct, zeroed frames; takes exactly the frames that the pages and missing page tables need, and fails if and only if fewer are free; panics if and only if the frames last to a page in the way; out of memory, restores mappings and returns every data frame if and only if no page was in the way |
| `Vm.RollBackLoses` | xv6-public/vm.c:257-261 | A memory with no free frame and a page in the way, which the clean-up takes away |
| `Vm.Machine.SetupKvm` | xv6-public/vm.c:120-138 | A new address space without user pages whose page tables are those of the kernel half, for 65 frames; if and only if fewer are free, none, and all is as before |
| `Vm.Machine.FreeVm` | xv6-public/vm.c:306-321 | Exactly the frames of this address space are returned, and other address spaces keep their mappings |
| `Vm.CopiedIs` | xv6-public/vm.c:365-400 | Parent and child have equal contents and flags on disjoint frames |
| `CopyPlan.CopyNeedIs` | xv6-public/vm.c:375-393 | If every page is there and listed once, copying needs a frame for each page and one for each page table they are in |
| `Vm.Machine.CopyUvm` | xv6-public/vm.c:338-400 | Copies exactly the image and the stacks to frames of their own; fails if and only if fewer frames are free than the kernel half, the pages and their page tables need, and then every frame is returned; panics if and only if the frames last to a page that is not there or listed twice |

## Left out

- Hardware, boot, console, traps, context switch and TLB: foreign effects; iderw is an atomic block transfer.
- Several CPUs: schedulers are modelled on one CPU a slice at a time, but for mlfqselect; stridelogic's loop over the run list is not modelled.
- exec and __usurp_proc: they swap tids and do not carry the level over.
- fork with threads: the MLFQ machine takes any thread states for the child; copying kernel stacks and skipping zombies is not modelled, and ThreadGroup has fork of one thread only.
- Foreign wake-ups of a futex sleeper: Semaphore assumes that only futex_wake wakes it; the spinning with sleep in xem_wait is a retry.
- RwLock.LockSafe: at most XEMQSZ threads, and that a thread granted a semaphore also wakes up, are assumed of the semaphores; Semaphore.QueueFullExactly and Semaphore.AwakeExactly say exactly when that holds.
- GuardedFile: what RwLock assumes is assumed; each transaction of a write and each read is one step, as the inode lock makes it.
- Semaphore: that the duty to unlock is not passed on in the middle of an xem_unlock is part of how users behave; a second unlocker would wait for the guard.
- CrashConsistency.CrashConsistent: the calls are writei and itrunc, and that the calls of a group come to the same as one after another and leave its result in the inode and bitmap blocks is a hypothesis (each inode is locked during a call, and iupdate is not modelled); creating files and directories is not among them.
- LogCapacity.CapacityExact: that each operation adds at most MAXOPBLOCKS log entries is a hypothesis, since freeing a large file can touch more bitmap blocks; the disk is taken to have LOGSIZE blocks outside the log.
- LogMachine: lock waits are steps that are not enabled; the superblock and initlog's reading of it are parameters.
- BufferCache.Cache.Brelse: its two critical sections are taken as one step; buffers of device 0 are not claimed unique.
- Vm.Machine.SetupKvm: the kernel half of an address space is kept down to its page tables; which frames their entries map is not modelled.
- FileSystem: device inodes, the inode cache, inode blocks on disk (iupdate), directories and path names are not modelled; the four nested loops of bmap and itrunc are one recursion over the height of the tree.
- FileOps: pipes, reference counts and file descriptors are not modelled.
- Stride.FairFromBoot: stated for runs in which no charged pass is above the barrier, as RenormalisedGaps and GapLost show to be needed.
- StrideTable: a stride process is one entity; which of its threads runs is not modelled.
- Mlfq: wakeup1's search by channel, kill and the parent-child links are not modelled; the sleep list is a set.
- MlfqTable: update in place of the intrusive lists is in ListHead; the table holds queues as sequences.
- ThreadGroup.Threads.ThreadCreate: whether the stack could be allocated is a parameter, and addresses are not bounded below.
- Malloc.Allocator.Malloc: what the program does once malloc has gone astray is not modelled; sbrk's answers are a parameter and are above all earlier ones; addresses are multiples of the header size.
- Vm: clearpteu, loaduvm, inituvm, copyout and kfree's filling with junk are not modelled; allocustack and deallocustack are calls of the methods here.
- kalloc.c: freerange and the start-up phases; the free list is a sequence of frames.
- mkfs, system-call plumbing, pipes, the shell and user programs: they would add only easy members.
