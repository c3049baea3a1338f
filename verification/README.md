# riscv-lab kernel: models and proofs

A Dafny model of the parts of the kernel whose correctness is a property of whole runs, of
refinement or of round trips: the scheduler and its semaphores, the write-back block cache, the
easyfs inode and directory layer over its bitmap allocator, the Sv39 page tables, the virtio disk
driver and the slab allocator.

| files | what they model |
|---|---|
| `Scheduler.dfy`, `SchedulerInvariant.dfy`, `SchedulerFrames.dfy`, `SchedulerProofs.dfy`, `SchedulerTheorems.dfy`, `SchedulerService.dfy`, `SchedulerCalls.dfy` | four harts, any number of threads and semaphores; a step is one lock, one unlock, one list operation or one context switch |
| `Bio.dfy`, `BlockLayer.dfy`, `BlockLayerProofs.dfy`, `BlockLayerTheorems.dfy`, `BlockLayerService.dfy` | any number of clients, the IO thread and the write-back thread over a block device; the specification is one flat byte array |
| `Bitmap.dfy`, `EasyFs.dfy`, `EasyFsProofs.dfy`, `EasyFsFree.dfy`, `EasyFsWrites.dfy`, `EasyFsTheorems.dfy` | the bitmap allocator in place, the block map, unlink, reads and writes, files as byte sequences |
| `DirRecords.dfy`, `InodeArea.dfy`, `EasyFsSync.dfy`, `EasyFsRemount.dfy` | directories as 24-byte records in a file, inodes as 128-byte slots of the inode area, the write-back of live and dead inodes, remounting |
| `EasyFsRuns.dfy`, `EasyFsRunProofs.dfy`, `EasyFsRunTheorems.dfy` | runs of reads, writes, creations, directory updates, unlinks and write-backs against a plain map of byte sequences |
| `EasyFsDurable.dfy`, `EasyFsDurability.dfy` | which changes reach the disk over such runs, and what a remount finds |
| `EasyFsFiles.dfy`, `Directory.dfy`, `EasyFsExamples.dfy` | the file system and its directories in place, five small counterexamples |
| `PageTable.dfy`, `VirtualMemory.dfy`, `AddressSpaces.dfy` | the three-level tree in memory, `walk`, `mappages`, the kernel and the first user address space |
| `VirtioDesc.dfy`, `Virtio.dfy`, `VirtioProofs.dfy`, `VirtioTheorems.dfy` | descriptor table in place; driver, device and interrupt handler as one transition system |
| `PowerOfTwo.dfy`, `SlabGeometry.dfy`, `SlabCache.dfy` | sizes and orders, and object caches over single-page slabs |
| `Lists.dfy`, `Basics.dfy` | the circular list and the fifo, as linked nodes; shared constants and definitions |

Conventions. Protocols (scheduler, block cache, virtio) are transition systems, and their theorems
speak about every state of every run. Data structures are classes whose methods are proved against
functions on values. A panic is a result value, never a precondition. Fields called history or
auxiliary in the comments only record the past (`place`, `live`, `granted`, the semaphore logs,
`served`, `mapped`, the virtio counters); no field of the source depends on them. The one client
assumption of the scheduler model is that a mutex is unlocked by a thread that holds it. 64-bit bitmap
words are 64 booleans, shifts are divisions, and 16- and 32-bit wrap-around is written out where it
can happen.

Results that differ from what one would expect of the code:

- `bitmap_alloc` tests `res > size`, so with a wrong free count it hands out index `size`
  (`AllocOutOfRange`); `AllocInRange` gives the exact condition on the state before the call.
- `bio_list_make` tiles its range exactly when no 32-bit quantity overflows and an only piece is not
  longer than a block (`BioListMake`, both directions; `DoesNotFit` builds a list that is no tiling).
  On a device of at most 2^32 bytes every request inside it fits (`RequestFits`, `MakeRequest`).
- `efs_i_data_free` releases all blocks of a file exactly when its indirect table is in memory or
  absent; otherwise the blocks named by the table stay taken (`FreedAll`, `LeakExample`).
- `efs_i_trunc` leaves the freed block numbers in the inode, so the inode obeys the ownership
  invariant afterwards exactly when it had no block (`TruncOk`, `TruncExample`).
- An unlinked inode stays on the dirty list, and its write-back puts the old indirect table into a
  block that is free by then. All files keep their contents exactly when the table is not in memory,
  or no live file reads its old block, or that block holds the same bytes (`SyncDead`); in the run of
  `DeadExample` a byte of another file changes. The write-back of a live inode is harmless
  (`SyncLive`).
- The dead inode also overwrites a record or a stored table. A live inode that is on the disk stays so
  exactly when the dead one has another number or the same record, and another table block or the same
  table (`DeadKeepsIff`). The dirty list is written newest first, so a number that is used again before
  the next pass always ends without links on the disk (`ReusedNumber`, `ReuseExample`).
- `efs_d_creat` and `efs_d_unlink` change the directory's size, and `efs_i_unlink` drops a link that is
  not the last, without marking the inode dirty. As long as a round of `efs_sync` is atomic, these and
  the dead inodes are the only ways in which a change is lost (`DurableIff`). `efs_d_update` marks the inode exactly when there are children
  (`TouchIff`), so a directory that loses its last child keeps its old size on the disk (`EmptiedDir`).
- `tools/mkfs.c` writes a count of free inodes that includes the number `size`, which the inode bitmap
  hands out (`WiderAlloc`) and does not take back: removing that file stops the kernel (`Unlink`).
- `efs_i_bmap` does not clear a block it takes for an indirect table; when a file gets its 13th block
  the ownership invariant survives exactly when that block reads as zeros (`StaleTable`; in
  `StaleExample` the 13th block is the file's own second block). The write theorems therefore carry
  the premise that this one block reads as zeros, and only for writes that reach the 13th block. The
  premise holds whenever all free blocks read as zeros (`ZeroImage`), which every run of reads,
  writes, creations, directory updates and write-backs keeps (`CleanRun`), and an unlink keeps exactly when the file's
  blocks were zero (`UnlinkDirties`).
- `efs_d_update` ignores the result of its writes; the directory is stored exactly when it fits into
  a file of maximal size (`UpdateOk`).
- `flush_bhash` clears the dirty flag after it has unpinned the buffer. That a buffer with a clear flag
  holds what is on the device is kept by every step, except by a clear after a write that slipped in
  between, and by that one exactly when it changed the page (`CleanStep`, `CleanLost`).
- `kmem_cache_create` stores the rounded size in 16 bits; it survives exactly up to 32768
  (`Geometry`), and the free stack fits its page exactly from size 9 on (`StackFits`).

## Model

| member | source | states |
|---|---|---|
| Scheduler.PickNextTask | kernel/sched.c:26-39 | the reverse search returns the RUNNABLE thread nearest the tail, and nothing only if no queued thread is RUNNABLE |
| SchedulerProofs.StepInv | kernel/sched.c:26-161 | every lock, unlock, list operation and context switch of every routine keeps the pairwise invariant between harts, threads, locks, queues and semaphores |
| SchedulerProofs.RunInv | kernel/sched.c:94-161 | the invariant holds in every state of every run from the initial state |
| SchedulerTheorems.WaitDescends | kernel/sched.c:41-140 | a hart waiting for a lock has a higher rank than the hart holding it, although scheduler() and yield()/wakeup_process() take queue and thread locks in opposite orders |
| SchedulerTheorems.NoDeadlock | kernel/sched.c:41-140 | in every run no circle of harts waits for one another and no chain of waiting harts is longer than four |
| SchedulerTheorems.Unblocker | kernel/sched.c:41-161 | from every hart a chain of waits leads to a hart that is not waiting |
| SchedulerTheorems.Progress | kernel/sched.c:41-161 | in every run the hart at the end of that chain runs thread code or can execute its next kernel step |
| SchedulerTheorems.OnePlace | kernel/sched.c:26-140 | in every run a created thread is at exactly one of: a run queue, a wait queue, an out list, a hart, or in a hart's hands; no list names it twice |
| SchedulerTheorems.WindowLocked | kernel/sched.c:61-77 | while a hart switches away from a re-filed thread it still holds that thread's lock |
| SchedulerTheorems.ContextSaved | kernel/sched.c:94-131 | a thread's context is in the registers of at most one hart, and no hart loads it before it is saved |
| SchedulerTheorems.NoPanic | lib/semaphore.c:43-65 | in every run: sem_signal never finds an empty queue, only holders unlock, nobody relocks a held lock, sched() is entered with the thread lock and not RUNNING |
| SchedulerTheorems.PickIsOldest | kernel/sched.c:26-39 | in every run every queued thread is RUNNABLE, so pick_next_task returns the oldest entry |
| SchedulerTheorems.SemaphoreLaws | lib/semaphore.c:9-65 | in every run the wait queue is as long as the value is negative (up to a waiter between decrement and push), completed waits never exceed initial value plus signals, and waiters leave in arrival order; that a wait which returned has completed and a signal which returned was counted is `WaitReturns` and `SignalReturns`, and the initial value is `NewSemLaws` |
| SchedulerTheorems.LogsGrow | lib/semaphore.c:16-65 | the recorded push and pop orders and the counts of signals and completed waits only grow, and a thread stops holding a semaphore only by its own signal |
| SchedulerTheorems.MutualExclusion | lib/mutex.c:6-35 | in every run at most one thread is recorded as holding a mutex that is unlocked only by its holder; `CriticalSection` states it for the calls |
| SchedulerCalls.WaitReturns | lib/semaphore.c:16-41 | in every run, when the thread that called sem_wait is back in its code, a wait has ended that had not ended at the call, and after mutex_lock the thread holds the mutex |
| SchedulerCalls.HeldUntilUnlock | lib/mutex.c:12-35 | in every run a thread that holds a mutex holds it until it calls mutex_unlock |
| SchedulerCalls.CriticalSection | lib/mutex.c:12-35 | in every run two threads whose mutex_lock returned and who have not called mutex_unlock are the same thread |
| SchedulerCalls.SignalReturns | lib/semaphore.c:43-65 | in every run, when the hart that entered sem_signal is out of it, the signal has been counted |
| SchedulerCalls.NewSemLaws | lib/semaphore.c:9-14 | a semaphore made with a value starts with it and an empty queue, and never lets more waits return than that value plus the signals |
| SchedulerCalls.YieldQueues | kernel/sched.c:80-92 | in every run a thread that called yield is back in its code only after it joined, behind all others, the run queue of a hart it may run on |
| SchedulerCalls.CreateQueues | kernel/sched.c:163-185 | in every run a new thread has joined such a run queue when the hart is out of kthread_create |
| SchedulerCalls.SignalQueues | kernel/sched.c:153-161 | in every run a thread taken off a wait queue has joined such a run queue when the hart is out of sem_signal |
| SchedulerCalls.QuitFinal | kernel/proc.c:27-39 | in every run a thread that called quit is never in its code again, and is on an out list once the hart is back at the scheduler loop |
| SchedulerService.OperationEnds | kernel/sched.c:41-161 | in every run a hart inside an operation is out of it after at most twelve steps of its own, however the other harts interleave |
| SchedulerService.FirstComeFirstServed | kernel/sched.c:26-58 | in every run a thread that joins a run queue leaves it after everyone who was on it then |
| SchedulerService.OldestRuns | kernel/sched.c:94-131 | in every run a hart that looks at a nonempty run queue next runs the oldest thread on it |
| SchedulerService.AffinityKept | kernel/sched.c:41-58 | in every run a thread created with an affinity is executed by that hart only and queued on no other |
| SchedulerService.FirstPlaced | kernel/sched.c:41-58 | in every run the first thread without affinity goes to hart 0 |
| SchedulerService.RoundRobin | kernel/sched.c:41-58 | in every run successive threads without affinity go to successive harts, modulo the number of harts |
| SchedulerProofs.NotPending | lib/semaphore.c:16-41 | while a hart has the semaphore lock outside the window between decrement and push, no other hart is inside that window |
| SchedulerProofs.SavedWhenQueued | kernel/sched.c:101-123 | a queued thread whose lock is held by another hart than its last has its context saved |
| Bio.BioListMake | kernel/dev/blk/bio.c:27-72 | the list equals the block-wise split of the range; it tiles the range exactly when nothing overflows; an empty range gives no pieces |
| Bio.SplitTiles | kernel/dev/blk/bio.c:27-72 | the split is ascending, contiguous, nonempty, one block per piece, and covers exactly the range |
| Bio.DoesNotFit | kernel/dev/blk/bio.c:27-72 | the list built for a range of 2^32 - 1 bytes at offset 4095 does not tile it |
| Bio.NoTiling | kernel/dev/blk/bio.c:27-72 | a list past 2^44 bytes, or with one piece longer than a block, tiles nothing |
| BlockLayer.RequestFits | kernel/dev/blk/request.c:29-52 | on a device of at most 2^32 bytes nothing overflows for a request inside it |
| BlockLayer.MakeRequest | kernel/dev/blk/request.c:29-52 | the chain of such a request is the block-wise split of its range, which is what the IO thread works on |
| BlockLayer.BhashFind | kernel/dev/blk/buf.c:103-115 | the bucket search finds a buffer of the block if the bucket has one and otherwise nothing |
| BlockLayerProofs.StepInv | kernel/dev/blk/gendisk.c:57-203 | every step of clients, IO thread and write-back thread keeps cache, queue and history consistent |
| BlockLayerTheorems.DiskIsFlatArray | kernel/dev/blk/gendisk.c:57-147 | in every run the logical disk equals the flat array after the served requests, plus the bytes already copied of the write in progress |
| BlockLayerTheorems.RequestsLinearize | kernel/dev/blk/gendisk.c:63-203 | in every run requests are served in append order, each answer is the flat array's, a caller returns only after its request was served, a caller whose request was served has returned or has its wake-up waiting, and the IO thread never dequeues from an empty queue |
| BlockLayerService.CallAnswered | kernel/dev/blk/gendisk.c:149-203 | in every run a call that returned has its own place in the order of service, after everything served before the call, and its answer is the flat array's at that place for the request that was passed |
| BlockLayerTheorems.OneBuffer | kernel/dev/blk/buf.c:103-174 | in every run there is at most one buffer per block and the lookup finds it |
| BlockLayerTheorems.HistoryGrows | kernel/dev/blk/request.c:22-69 | served requests and answers are never revised |
| BlockLayerTheorems.IoNotStuck | kernel/dev/blk/flush.c:61-89 | in every run a busy IO thread can go on, or the write-back thread that holds its buffer can |
| BlockLayerService.WorkFalls | kernel/dev/blk/gendisk.c:57-147 | the work before an unserved request falls by one with every step of the IO thread and changes with no other step |
| BlockLayerService.ServedInTime | kernel/dev/blk/gendisk.c:57-147 | in every run a request is served once the IO thread has taken the steps that were before it, whatever is appended later |
| BlockLayerService.SomeoneSignals | kernel/dev/blk/request.c:54-69 | without a permit some client that came no later than the waiting request has still to signal |
| BlockLayerService.RequestProgress | kernel/dev/blk/request.c:22-69 | in every run, while a request waits, the IO thread can go on, or the write-back thread that holds its buffer can, or a client that came no later can signal |
| BlockLayerService.ClientReturns | kernel/dev/blk/gendisk.c:144-203 | in every run a client whose request was served has returned or can return, at most after its own signal |
| BlockLayerService.ClientFalls | kernel/dev/blk/request.c:54-69 | a client signals once and returns once, and no other step changes it |
| BlockLayerService.QuietMeansDone | kernel/dev/blk/gendisk.c:57-203 | in every run, when nothing but new requests and new write-back rounds can happen, every request was served in order and every client has returned |
| BlockLayerService.WrittenBack | kernel/dev/blk/flush.c:61-95 | in every run a buffer the write-back thread has popped has been on the device, as it then was, before the thread is done with it |
| BlockLayerService.FlushNotStuck | kernel/dev/blk/flush.c:61-95 | in every run the write-back thread can go on with its buffer, or the IO thread that holds it can |
| BlockLayerService.WrittenOnDevice | kernel/dev/blk/flush.c:61-79 | in every run the device block is the page while the write-back thread still pins the buffer it wrote |
| BlockLayerService.CleanStep | kernel/dev/blk/flush.c:61-89 | that buffers with a clear flag hold what is on the device is lost by a step exactly when the step clears the flag of a page that differs from its block |
| BlockLayerService.RunClean | kernel/dev/blk/flush.c:61-89 | it holds throughout every run in which no flag was cleared on such a page |
| BlockLayerService.CleanLost | kernel/dev/blk/flush.c:79-88 | a piece copied into the buffer between unpin and clear loses it |
| Bitmap.Map.InitZone | lib/bitmap.c:14-20 | adopts the words with full count and cursor 0 |
| Bitmap.Map.Init | lib/bitmap.c:5-12 | everything below the size is free, bits behind the cleared bytes are kept |
| Bitmap.Map.BitmapAlloc | lib/bitmap.c:34-69 | the nested word-skipping scan computes the first clear bit from the cursor on |
| Bitmap.Map.BitmapFree | lib/bitmap.c:73-98 | clears the bit, moves the cursor back, counts only real frees |
| Bitmap.Map.BitmapResetAllo | lib/bitmap.c:22-27 | places the cursor by one allocation and one free |
| Bitmap.Map.BitmapIsFree | lib/bitmap.c:100-111 | -1 out of range, 1 for a clear bit, 0 for a set one |
| Bitmap.ZeroBytes | lib/bitmap.c:11 | clears exactly the given number of bytes, also inside a word |
| Bitmap.AllocLeast | lib/bitmap.c:34-69 | allocation fails exactly when nothing is free, else takes the least free index, and keeps count and cursor exact |
| Bitmap.ReleaseOne | lib/bitmap.c:73-98 | a free makes exactly that index free; a double or out-of-range free changes nothing |
| Bitmap.AllocReleaseAlloc | lib/bitmap.c:34-98 | taking and giving back restores the free set and the next allocation repeats the index |
| Bitmap.ResetManaged | fs/easyfs/super.c:27-36 | mounting with bit 0 reserved and an exact count gives a consistent allocator with the free set found on disk |
| Bitmap.AllocInRange | lib/bitmap.c:34-69 | an index not below the size is returned exactly when the count is nonzero, all bits from cursor to size are set and bit `size` itself is clear |
| Bitmap.AllocOutOfRange | lib/bitmap.c:57-59 | with a wrong count index `size` is returned |
| Bitmap.WiderAlloc | lib/bitmap.c:57-59 | a bitmap whose count includes the index `size` hands out what one with that index more would |
| Bitmap.ResetWider | fs/easyfs/super.c:16-25 | mounting such a bitmap is consistent when an index below `size` is free |
| EasyFs.TableRoundTrip | fs/easyfs/inode.c:79-84 | an indirect table written back and read again is the same table |
| EasyFsProofs.TakeBlockOk | fs/easyfs/super.c:204-212 | efs_bmap_alloc hands out a free data block, counts it, and panics exactly when none is free |
| EasyFsProofs.BmapAlloc | fs/easyfs/inode.c:119-172 | mapping the next block keeps all recorded blocks of all inodes nonzero, taken, pairwise distinct and a prefix per file; nothing recorded before changes |
| EasyFsProofs.BmapPanics | fs/easyfs/inode.c:119-172 | it panics exactly when the block, and the table in front of the 13th one, do not fit the free blocks |
| EasyFsTheorems.TablePanic | fs/easyfs/inode.c:143-170 | at the 13th block it panics exactly when no block is left, or one is left and the first word of the new table is zero, whatever the table holds |
| EasyFsProofs.BmapLookup | fs/easyfs/inode.c:119-172 | without alloc it returns the recorded block or 0 and changes nothing but the loaded table |
| EasyFsProofs.StoreOk | fs/easyfs/inode.c:273 | writing a data block changes no block number of any inode |
| EasyFsProofs.StoreByte | fs/easyfs/inode.c:273 | writing a data block changes exactly its bytes of its own file |
| EasyFsFiles.Efs.Mount | fs/easyfs/super.c:16-36 | adopting both bitmaps establishes the invariant of the runs and keeps the free sets found on disk, also with the inode count the image builder writes |
| EasyFsFiles.FillMap | fs/easyfs/super.c:16-36 | a bitmap adopted with its exact count, or with the bit behind it counted too, is consistent, with bit 0 never handed out |
| EasyFsFiles.Efs.BmapAlloc | fs/easyfs/super.c:204-212 | takes one block from bitmap and count together |
| EasyFsFiles.Efs.IBmap | fs/easyfs/inode.c:119-172 | the in-place block map computes the specification function |
| EasyFsFiles.Efs.Read | fs/easyfs/inode.c:232-256 | returns exactly the bytes of the range clamped to size and mapped blocks, 0 on wrap-around; the new state is that of a run of block lookups |
| EasyFsFiles.Efs.Write | fs/easyfs/inode.c:258-286 | in every state it computes the run step `WriteOp`, dirty mark included; from a consistent state, with a zero next table where the write reaches the 13th block, it refuses exactly the out-of-range calls, panics exactly when the needed blocks exceed the free ones, and otherwise returns len with exactly its range changed |
| EasyFsFiles.Efs.WriteBlocks | fs/easyfs/inode.c:267-275 | the loop in place computes the loop of the specification |
| EasyFsWrites.WriteAllOk | fs/easyfs/inode.c:258-286 | the value-level write meets that specification and keeps the ownership invariant |
| EasyFsFiles.Efs.New | fs/easyfs/inode.c:330-359 | takes the number the inode bitmap hands out, or panics when it hands out none, and enters an empty inode under it |
| EasyFsFiles.Efs.SetType | fs/easyfs/inode.c:423-433 | the run step `TypeOp`: the type changes and the inode is marked |
| EasyFsFiles.Efs.SetSize | fs/easyfs/dentry.c:302 | the run step `SizeOp`: the size changes and nothing is marked |
| EasyFsRunProofs.NewNumber | fs/easyfs/super.c:183-191 | the number handed out belongs to no live inode, and the inode bitmap stays consistent with the live inodes |
| EasyFsFiles.Efs.Dup | fs/easyfs/inode.c:181-184 | the inode has one reference more; its other fields and all other inodes are kept |
| EasyFsFiles.Efs.Put | fs/easyfs/inode.c:175-179 | the inode has one reference less and nothing else changes, and it panics exactly when there is none |
| EasyFsRunTheorems.OpenStays | fs/easyfs/inode.c:175-184 | after efs_i_dup the unlink of the last link is refused and changes nothing |
| EasyFsRunTheorems.DupPut | fs/easyfs/inode.c:175-184 | efs_i_put after efs_i_dup does not panic and restores everything |
| EasyFsFiles.Efs.BmapFree | fs/easyfs/super.c:215-222 | panics exactly for a block that is free or out of range |
| EasyFsFiles.Efs.DataFree | fs/easyfs/inode.c:289-307 | the two loops give back exactly the listed blocks, in order, and never reach the panic |
| EasyFsFree.ReleaseOk | fs/easyfs/inode.c:289-307 | giving back the first k listed blocks frees exactly those, and none of them was free already |
| EasyFsFiles.Efs.Trunc | fs/easyfs/inode.c:311-327 | frees the data, sets the size to 0 and marks the inode; the block numbers stay |
| EasyFsFiles.Efs.Unlink | fs/easyfs/inode.c:362-398 | refuses exactly inodes 0 and 1 and referenced last links; dropping the last link frees blocks and number and leaves the dead inode behind, dirty; it panics exactly when the number is free already |
| EasyFsFiles.Efs.IUpdateDisk | fs/easyfs/inode.c:72-86 | writes record and loaded table at their places |
| EasyFsFiles.Efs.Sync | fs/easyfs/super.c:118-135 | one round takes the entry marked last and is the run step `SyncOp` |
| EasyFsFiles.Efs.Flush | fs/easyfs/super.c:118-135 | the loop empties the dirty list, live and dead inodes in list order, by as many run steps `SyncOp` |
| EasyFsSync.SyncLive | fs/easyfs/inode.c:72-86 | writing a live inode back keeps the invariant, every block number and every byte of every file |
| EasyFsSync.SyncDead | fs/easyfs/inode.c:72-86 | writing a dead inode back changes nothing any file shows exactly when its table is not in memory, or no live file reads the table's old block, or that block holds the same bytes |
| EasyFsExamples.DeadExample | fs/easyfs/super.c:118-135 | a run from a consistent state, unlink, write, two rounds of efs_sync, in which the write-back of the unlinked inode turns byte 0 of another file from 9 into 14 |
| EasyFsFree.FreedAll | fs/easyfs/inode.c:289-307 | the freed set is everything the file owned exactly when the table is loaded or absent |
| EasyFsFree.UnlinkOk | fs/easyfs/inode.c:362-398 | without the unlinked inode the file system obeys the invariant |
| EasyFsFree.TruncOk | fs/easyfs/inode.c:311-327 | a truncated inode obeys the invariant exactly when it had no block |
| EasyFsTheorems.WriteContents | fs/easyfs/inode.c:258-286 | all files after a write are the files before with exactly the written range replaced or extended |
| EasyFsTheorems.ReadContents | fs/easyfs/inode.c:232-256 | what a read returns is the slice of the file's byte sequence clamped to its size |
| EasyFsRunProofs.AllDefined | fs/easyfs/inode.c:72-398 | in a consistent state every operation on a live inode, and every round of efs_sync, can be carried out |
| EasyFsRunProofs.StepKeeps | fs/easyfs/inode.c:72-398 | each write, read, creation, type, size and reference change, directory update, unlink and write-back, under a guard the caller can check before it, keeps the invariant, acts on the files as on a map of byte sequences, and loses no block but those of an unloaded table |
| EasyFsRunTheorems.RunContents | fs/easyfs/inode.c:72-398 | over any run of such operations on any number of files and directories every state obeys the invariant and every file that is no directory equals the byte sequence a plain map of files would hold |
| EasyFsRunTheorems.RunListings | fs/easyfs/dentry.c:120-136 | over any run the file of every live directory holds the records it was last updated with, before the run or in it, as long as they fit a file |
| EasyFsRuns.RunStates | fs/easyfs/dentry.c:268-360 | what the directory methods call a run is one in the sense of these theorems |
| EasyFsRunTheorems.RunConserves | fs/easyfs/super.c:204-222 | over any run free blocks plus blocks owned by all files plus blocks leaked stay constant |
| EasyFsRunTheorems.LeakIff | fs/easyfs/inode.c:289-307 | an operation leaks exactly when it drops the last link of a file whose table exists and is not in memory |
| EasyFsRunTheorems.CleanRun | fs/easyfs/inode.c:143-157 | on an image whose free blocks are zero no run of reads, writes, creations, directory updates and write-backs meets a dirty table: the guards hold with the table premise dropped |
| EasyFsTheorems.ZeroImage | fs/easyfs/inode.c:143-157 | on an image whose free blocks are zero the next table of every file is |
| EasyFsProofs.NthFreeIs | fs/easyfs/super.c:204-212 | the block a later allocation will return is a free data block now |
| EasyFsExamples.StaleExample | fs/easyfs/inode.c:143-170 | a consistent file system in which the 13th block of a file becomes its own second block |
| EasyFsExamples.LeakExample | fs/easyfs/inode.c:289-307 | a consistent file system in which freeing a file leaves one of its blocks taken |
| EasyFsExamples.TruncExample | fs/easyfs/inode.c:311-327 | a consistent file system that giving back a file's blocks and setting its size to 0 makes inconsistent |
| EasyFsTheorems.StaleTable | fs/easyfs/inode.c:143-170 | when a file gets its 13th block the ownership invariant survives exactly when the block taken for the table reads as zeros |
| EasyFsTheorems.UnlinkDirties | fs/easyfs/inode.c:289-327 | free blocks still read as zeros after an unlink exactly when the freed blocks did |
| Directory.NameCmp | fs/easyfs/dentry.c:39-42 | the comparison is 0 exactly when the names agree up to a NUL or 16 characters |
| Directory.FindName | fs/easyfs/dentry.c:140-155 | finds a child of that name if and only if there is one |
| DirRecords.DirentRoundTrip | fs/easyfs/dentry.c:99-136 | a record encoded in 24 bytes decodes to itself |
| DirRecords.ListedUnique | fs/easyfs/dentry.c:99-136 | a directory file determines its records |
| Directory.Dir.Fill | fs/easyfs/dentry.c:99-116 | reads back exactly the records an update stored, also across block boundaries; what a short read leaves out is arbitrary |
| Directory.Dir.Update | fs/easyfs/dentry.c:120-136 | in every state the loop is the run step `UpdateOp`, dirty mark included; from a consistent state it has the outcome of `UpdateOk` |
| DirRecords.UpdateOk | fs/easyfs/dentry.c:120-136 | the kernel stops exactly when the blocks the records need exceed the free ones; otherwise the children are stored exactly when they fit a maximal file, and every other file is unchanged |
| Directory.Dir.NameCheck | fs/easyfs/dentry.c:140-155 | fills the directory on first use and answers whether the name is taken |
| Directory.Dir.Creat | fs/easyfs/dentry.c:268-311 | adds the child exactly when the name is new and the inode bitmap has a number; the child is a fresh empty inode, names stay distinct, every other file keeps inode and bytes, and the call is a run of lookups, creation, type and size change |
| Directory.NumbersLeft | fs/easyfs/super.c:183-191 | the inode bitmap has no number exactly when nothing is free, or only the number `size` and that is a multiple of 64 |
| Directory.Dir.Unlink | fs/easyfs/dentry.c:313-360 | removes exactly the child unless it is a directory with entries, the root or in use, and stops exactly when the inode bitmap does not take the number back; the child loses a link, or disappears with its last; every other file keeps inode and bytes, and the call is a run of lookups, unlink and size change |
| Directory.UnlinkKept | fs/easyfs/inode.c:362-398 | dropping a link keeps invariant, inode bitmap and every other file |
| DirRecords.KeptContents | fs/easyfs/dentry.c:120-360 | a file outside a directory operation has the same contents after it |
| Directory.Dir.Rename | fs/easyfs/dentry.c:362-380 | renames exactly when the new name is not taken; names stay distinct |
| InodeArea.UpdateFill | fs/easyfs/inode.c:64-86 | filling after an update gives the same disk inode |
| InodeArea.UpdateOther | fs/easyfs/inode.c:14-17 | updating one inode number changes nothing another number fills from |
| InodeArea.UpdateKeepsMap | fs/easyfs/inode.c:64-172 | every logical block maps to the same physical block before the update and after a fresh fill |
| EasyFsRemount.SyncKeepsOther | fs/easyfs/inode.c:72-86 | writing one live inode back leaves the record and the stored table of every other |
| EasyFsRemount.DeadKeepsIff | fs/easyfs/inode.c:72-86 | a stored live inode stays stored under the write-back of a dead one exactly when the dead one has another number or the same record, and no table, another table block or the same table |
| EasyFsRemount.RemountOk | fs/easyfs/inode.c:20-69 | when every live inode is stored, inodes filled afresh give a consistent file system with the same numbers, sizes, links, block maps and bytes |
| EasyFsRemount.RemountOne | fs/easyfs/inode.c:20-69 | a single stored inode is found with its metadata, block map and bytes, whatever has become of the others |
| EasyFsRemount.RemountIff | fs/easyfs/inode.c:20-69 | a remount finds the same inodes and block maps, each record under its own number, exactly when every live inode is stored |
| EasyFsDurable.TouchIff | fs/easyfs/dentry.c:120-136 | efs_d_update marks the directory's inode exactly when there are children |
| EasyFsDurable.DurableIff | fs/easyfs/inode.c:41-46 | an inode that is on the disk or on the dirty list stays so over an operation exactly when the operation does not change it unmarked and no dead inode overwrites it |
| EasyFsDurability.RunDurable | fs/easyfs/super.c:118-135 | an inode that is durable at one state of a run, stays live and is not forgotten up to another is durable there, whatever happens to the others |
| EasyFsDurability.FileRemount | fs/easyfs/super.c:118-135 | when the list is empty after a run, a remount finds every file that no operation forgot since it was last marked, or since a durable start, as a plain map of files would hold it, whatever has become of the others |
| EasyFsDurability.RunRemount | fs/easyfs/super.c:118-135 | when that holds of every live inode, the remounted world is consistent and durable, and has exactly the files and the directory records the specification says |
| EasyFsDurability.PendingOnly | fs/easyfs/dentry.c:268-360 | over any run whose dead inodes spare the live ones, in every state an inode that is not durable had its size or a link changed and was not marked since |
| EasyFsDurability.UpdatedRemount | fs/easyfs/dentry.c:120-360 | so after creations, removals, directory updates and passes in any order, when the list is empty and every directory whose size changed was updated with children since, a remount finds all files and directories |
| EasyFsDurability.CreatRemount | fs/easyfs/dentry.c:120-311 | after one creation, one update of its directory and enough passes, a remount finds the directory with the new child and every file |
| EasyFsDurability.RemountKeeps | fs/easyfs/super.c:118-135 | one pass over a dirty list of live and dead inodes, under a condition on the list at its start, keeps all files and directories, and the remounted world is consistent and has them |
| EasyFsDurability.EmptiedDir | fs/easyfs/dentry.c:120-136 | a directory that loses its only child has size 0 in memory and its old size on the disk, and nothing marks it |
| EasyFsDurability.ReusedNumber | fs/easyfs/inode.c:41-46 | whenever a number is used again before efs_sync ran, the emptied list leaves the new file without links on the disk |
| EasyFsExamples.ReuseExample | fs/easyfs/super.c:118-135 | a run from a consistent state that loses a new file this way |
| PageTable.HardwareAgrees | include/riscv.h:392-408 | the three-level Sv39 walk of the hardware agrees with the flat view at every address |
| PageTable.MappedRights | include/riscv.h:384-408 | at a mapped page the hardware's walk reaches the page and allows exactly the loads, stores, fetches and user accesses of the permission it was mapped with |
| PageTable.InstallAt | kernel/vm.c:38-85 | hanging in a fresh table adds one node and moves no other |
| PageTable.InstallLookup | kernel/vm.c:38-85 | and changes no translation |
| PageTable.OtherTree | kernel/vm.c:197-216 | a tree none of whose pages changed translates as before |
| VirtualMemory.Vm.Walk | kernel/vm.c:38-85 | finds the last-level slot of the address, creating tables if asked to; with alloc it fails only beyond MAXVA or without memory; no translation changes |
| VirtualMemory.Vm.MapPages | kernel/vm.c:87-124 | on success every page of the range maps to pa plus its distance with the given permissions and every other page as before; it panics on misaligned or empty ranges and otherwise only on a page already mapped |
| AddressSpaces.KvmMap | kernel/vm.c:126-130 | extends the identity map by the range; it panics only on a page already mapped or when pages run out that the range needs |
| AddressSpaces.MapKernel | kernel/vm.c:138-178 | the five mappings succeed whenever the pool holds the tables they need; then the hardware can load and store the devices, the data and the RAM, load and fetch the code, each at its own address and never from user mode, and faults everywhere else |
| AddressSpaces.KvmInit | kernel/vm.c:138-178 | for every address the hardware's walk of the kernel table gives the address itself with the rights of its region, or a fault outside the regions; 100 free pages suffice, and a panic means none is left |
| AddressSpaces.ShareTree | kernel/vm.c:197-216 | copying eight top-level entries gives a second tree with the same translations |
| AddressSpaces.KernelUntouched | kernel/vm.c:197-216 | mapping a user page in a gigabyte the kernel does not use changes no kernel translation |
| AddressSpaces.MapUser | kernel/vm.c:197-216 | maps one user page over the kernel's view; without a page it tries page 0, and it fails only without memory |
| AddressSpaces.UvmFirst | kernel/vm.c:197-216 | for every address the hardware's walk of the user table allows user mode to load and fetch the text page and to load and store the stack page, and is the kernel's walk elsewhere, which is unchanged; six free pages suffice, and a failure means none is left |
| AddressSpaces.UserConfined | kernel/vm.c:197-216 | user mode reaches an address exactly when it is in the text or the stack page, and the user table gives the kernel every translation of its own |
| AddressSpaces.KernelNotHigh | include/conf.h:24-25 | the kernel maps nothing in the gigabytes of user text and stack |
| VirtioDesc.Queue.constructor | drive/virtio/virtio_disk.c:159-161 | all descriptors start free |
| VirtioDesc.Queue.AllocDesc | drive/virtio/virtio_disk.c:171-183 | the lowest free index, -1 exactly when none is free |
| VirtioDesc.Queue.FreeDesc | drive/virtio/virtio_disk.c:186-198 | panics exactly for an index out of range or already free, else clears and frees |
| VirtioDesc.Queue.FreeChain | drive/virtio/virtio_disk.c:201-214 | terminates on every table; on a chain it frees exactly the chain and does not panic |
| VirtioDesc.Queue.Alloc3Desc | drive/virtio/virtio_disk.c:218-232 | succeeds exactly when three are free, with the three lowest; otherwise the set in use is restored |
| VirtioDesc.GiveAllIs | drive/virtio/virtio_disk.c:201-214 | freeing a list of descriptors changes exactly those |
| VirtioProofs.StepInv | drive/virtio/virtio_disk.c:234-319 | every step of driver, device and handler keeps the handshake invariant under wrapping 16-bit indices |
| VirtioProofs.SectorBlock | drive/virtio/virtio_disk.c:236 | the 32-bit sector product names the block exactly below 2^29 blocks |
| VirtioTheorems.NeverBroken | drive/virtio/virtio_disk.c:234-319 | in every run no panic and no malformed chain; allocation of three always succeeds and free_chain finds exactly the request's three |
| VirtioTheorems.AllFreeUnlocked | drive/virtio/virtio_disk.c:234-295 | all eight descriptors are free whenever the disk mutex is |
| VirtioTheorems.ReturnsAfterOwn | drive/virtio/virtio_disk.c:290-294 | a call passes its sleep only after its own request moved exactly its block |
| VirtioTheorems.ServeAccepts | drive/virtio/virtio_disk.c:244-273 | the modelled device carries out a chain exactly when it is an operation on a block of the disk, a page and a status byte with the right direction; everything else breaks the run |
| VirtioTheorems.CallDoes | drive/virtio/virtio_disk.c:234-295 | in every run, when the call that took the disk mutex returns, a write has put the caller's page into its block and changed no other block, and a read has put the block into the caller's page and changed no block |
| VirtioTheorems.CallEnds | drive/virtio/virtio_disk.c:234-295 | in every run a call has at most seven steps of its own left, falling by one with each, and except for its sleep can always take the next |
| VirtioTheorems.ConsumedOnce | drive/virtio/virtio_disk.c:297-319 | in every run the handler wakes once per posted completion, in order, and everything is consumed when the mutex is free |
| VirtioTheorems.SleepEnds | drive/virtio/virtio_disk.c:290-319 | each device or handler step shortens the work left and when none is possible the sleep returns, also if the interrupt came first |
| PowerOfTwo.NextPowerOf2 | lib/math.c:3-15 | the bit smearing yields the least power of two not below n, and 0 beyond 2^63 |
| SlabGeometry.CalcSlabOrder | mm/slab.c:78-93 | the least order whose pages hold four unrounded objects |
| SlabGeometry.FourFit | mm/slab.c:145-154 | four rounded objects fit although the order comes from the unrounded size, and the pages are filled exactly |
| SlabGeometry.StackFits | mm/slab.c:48-54 | header and free stack fit the page exactly for sizes from 9 on |
| SlabGeometry.Fits16 | mm/slab.c:152 | the rounded size survives the 16-bit cast exactly up to 32768 |
| SlabGeometry.Geometry | mm/slab.c:145-154 | rounded size, order and count for every 16-bit size; from 32769 on the stored size is 0 and the division has no result |
| SlabCache.SlabCreate | mm/slab.c:46-55 | the free stack lists the objects of the page in order |
| SlabCache.Conserved | mm/slab.c:96-113 | live objects and free stack partition the slab's objects, inuse counts the live ones |
| SlabCache.LiveApart | mm/slab.c:194-275 | two live objects of a cache share no byte |
| SlabCache.Cache.Create | mm/slab.c:145-162 | an empty cache with exactly one slab of free objects for each CPU |
| SlabCache.Cache.Alloc | mm/slab.c:194-241 | hands out an object that was not live: the top of the CPU's own slab while it has room, else of the first part slab, which moves to the full list with its last object, else the first object of the new page, which becomes the only part slab; it fails exactly when all three are exhausted |
| SlabCache.Cache.Free | mm/slab.c:244-275 | exactly the object stops being live and goes on top of its slab's stack; a full slab that is no CPU's moves to the head of the part list |
| SlabCache.FreeThenAlloc | mm/slab.c:194-275 | an object freed into a CPU's own slab is the next one that CPU gets |
| SlabCache.FirstAlloc | mm/slab.c:145-241 | a new cache hands out the first object of the CPU's page |
| Lists.ListAdd | include/lib/list.h:50-55 | inserts one node between two neighbours of a ring |
| Lists.ListAddHead | include/lib/list.h:79-82 | inserts in front of all entries |
| Lists.ListAddTail | include/lib/list.h:74-77 | inserts behind all entries |
| Lists.ListDel | include/lib/list.h:63-66 | removes exactly the entry, which keeps its stale links |
| Lists.ListDelInit | include/lib/list.h:68-72 | removes the entry and makes it a list of its own |
| Lists.ListEmpty | include/lib/list.h:94-97 | true exactly for a ring of one node |
| Lists.ListPop | include/lib/list.h:126-134 | the first entry, or nothing exactly when there is none |
| Lists.ListLen | include/lib/list.h:136-149 | the number of entries, a panic exactly beyond a million |
| Lists.Fifo.Push | include/lib/fifo.h:19-23 | appends at the end of the line |
| Lists.Fifo.Empty | include/lib/fifo.h:25-28 | the counter is zero exactly when the line is empty |
| Lists.Fifo.Pop | include/lib/fifo.h:30-36 | removes the entry that has waited longest |

## Left out

- The page allocator (mm/mm.c, mm/page.c): used only as "a new page is disjoint from everything live and zeroed".
- The dirty list of the cache: popped nodes keep stale links and are deleted again, so it does not name every dirty buffer; the write-back thread takes any buffer that is not new, which includes every order of the real list.
- The order in which a buffer's sleep lock is handed over: in the block layer either worker thread may take a free lock; that semaphore waiters are served in order is a theorem of the scheduler.
- LRU lists and counters of buf.c: no behaviour depends on them.
- Interrupt-enable nesting (`noff`, `intena`): a hart runs with interrupts off while it holds a spinlock and until it has cleared `cpu->thread`.
- `sem_init` with a negative value, and the `locked` and `thread` debug fields of a mutex.
- Memory lifetime of requests and thread records, and the lock of `mm` on the error path of `mappages`.
- The inode hash and efs_i_get: every live inode counts as in memory, and the dead ones are kept apart.
- The locks around easyfs operations: each operation is one atomic call.
- Byte-level string copying past a name's 16 bytes, path resolution (efs_d_named), lookup printing and the dentry hash.
- The write-back of the super block and of the two bitmaps: a remount finds them as they were in memory; the disk under easyfs is the logical disk of the block layer.
- RunContents: speaks of files that are no directories, because a directory's size grows before its records are written; `RunListings` is the theorem about directories.
- Rounds of efs_sync that are interrupted: the source drops the lock between taking an entry and clearing it, list_pop leaves stale links, and an inode marked in between is cut out of the list and never put back; here a round is atomic (`SyncOp`).
- The list of dirty directories: `UpdateOp` may come at any time, with the children the directory has.
- FillMap: with a count that includes the bit behind the map it asks for a free bit below it, as `Mount` does.
- Mount: with the image builder's count it asks for a free number below `size`, because placing the cursor otherwise takes the number `size` for good.
- Slabs of more than one page, unlocked per-CPU slab races, `kmalloc` below 9 bytes and kmem_cache_destory.
- Page-fault and copy-on-write code, freeing of page tables, copying the bytes of the first program (which faults when there was no page for it).
- virtio feature negotiation and memory barriers; descriptor addresses are symbolic; one interrupt handler runs at a time.
- WriteAllOk: carries the premise that the block to become the indirect table reads as zeros, because the code does not clear it (`StaleTable` says what happens otherwise), and that the offset is not beyond the mapped blocks, which holds for regular files and for directory updates.
- BmapAlloc: the lemma carries the same premise about the indirect table; `StaleTable` is exact.
- BmapPanics: carries the same premise; `TablePanic` is exact without it.
- UpdateOk: carries the same premise, for directories longer than twelve blocks.
- Read: does not say what the bytes of a directory whose records were never written are, because they were never written.
- Create: states the cache for sizes 9 to 1024 only, because larger objects use slabs of several pages.
- UART, PLIC, traps, boot code, timers, work queues, system-call stubs and the image builder.
