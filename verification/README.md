# Verified models of a teaching kernel

This project models the parts of an xv6 kernel (with copy-on-write fork, guarded
stacks, shared memory, futexes and condition variables) that are hard to get
right, and proves what they are for. `dafny verify dfyconfig.toml` checks it.

Each module stands for one component. Code that changes things in place is
modelled by classes, arrays and loops whose contracts tie them to functions on
values; protocols are state machines over their steps, with theorems about every
reachable state of every run.

| module | component | main results |
|---|---|---|
| `Disk`, `Crash` | the disk and the log as block writes | `CrashAtomicity`, `HistoryCrash` |
| `BufferCache`, `Log` | bio.c and log.c as code on a cache and a disk | `Bread`, `Commit`, `RecoverFromLog` |
| `Reservation` | log space reserved by concurrent calls | `RunInvariant`, `BudgetSufficesIff`, `CommitsWithinIff` |
| `Frames`, `Cow`, `Vm`, `Kalloc` | frames, reference counts, page tables, faults, layout | every method of `Machine` keeps `Valid`: every frame is accounted for, processes share nothing private, the layout is in order |
| `Eager` | copying at fork, as a reference of its own | `RunRefines`, `RefinesIff`, `GuardLost` |
| `Inodes` | bitmap, direct and indirect blocks | `Writei`, `Readi`, `Itrunc` on byte sequences |
| `Directories`, `Links`, `SysFile` | names, paths, link counts | `Namex`, `FreesOnlyUnnamed`, `SoundIff`, `FreeExactIff`, `SysUnlink` |
| `CondVar`, `SleepLock` | futex mutex, condition variable, sleep locks | mutual exclusion, no lost wakeup, `BroadcastWakesAll`, `CallsComplete` |
| `ProcTree` | fork, exit, wait, kill | `ZombieChildless`, `WaiterWoken`, `ReapedOnce` |
| `Malloc` | the user-level allocator | `Malloc`, `Free`, `GrantedUnits` |
| `Shell`, `Grammar` | the command parser, and the grammar it stands for | `ParseInPlace`, `ParsesIff`, `Unambiguous`, `PrintThenParse` |
| `Regex` | grep's pattern matcher | `Match` |
| `Pipe`, `Console` | ring buffers with wrapping counters | `Fifo`, `WriteStoresAll`, `TypedLines`, `ReadInOrder` |
| `Counting`, `Counters`, `Params`, `Wrappers` | sets and permutations of numbers, wrapping counters, shared sizes, options | |

How to read the statements:

- The disk takes one block at a time, as `memide.c` does, and a crash is a cut
  between two block writes. `Log.Commit` and `Log.RecoverFromLog` are proved to
  issue exactly the writes that `Crash` cuts.
- `Machine` in `Vm` carries, beside the page tables and the allocator, the memory
  that processes see through them. Every system call and fault keeps the two in
  agreement and says which step (`Takes`) it is on that memory. `Eager` defines
  the same steps for a kernel whose fork copies at once, without frames or counts,
  and says exactly on which runs processes cannot tell the two apart.
- A call that sleeps is modelled by its stretches between sleeps, each run under
  the lock it holds; state machines then take the stretches in any order.
- Panics and error returns are results (`None`, `Panic`, -1), not preconditions,
  except where a proof shows that they cannot happen.

Properties that one might expect and that fail are stated exactly:
`Reservation.BudgetSufficesIff` (a log of LOGSIZE blocks refuses calls that keep to
their budget), `Reservation.CommitGrantedIff` (calls that pass the tests of log_write
together overrun such a log, or leave commit no buffer), `Eager.RefinesIff` with
`Eager.ForkReadsIff` and `Eager.StoreAgreesIff` (a guard page that a copy-on-write
fault has made reachable is lost to children, and a store to the last guard page
is not killed), `Vm.CowSeenLoadsIff` (the fault that does it), `Links.FreeExactIff`
(link counts after a directory is freed with entries in it), `Links.SoundIff` and
`Links.DanglesIff` (a ".." looked up in a removed directory may stand for an inode
that is gone or being freed), `SysFile.Namespace.SysLink` (a link to the name "."
never returns), `ProcTree.UnmarkedIff` (a process that is killed before it starts),
`Malloc.UnitsSufficeIff` and `Malloc.SbrkAskedIff` (32-bit wrap),
`Pipe.ReaderKeptIff` (a reader left asleep beside unread bytes).

## Model

| member | source | states |
|---|---|---|
| `Disk.Replay` | log.c:69-82 | Writing a list of blocks again, after any part of a first attempt to write them, ends with the same disk: installing is idempotent. |
| `Disk.ApplyWritten` | memide.c:39-60 | After a sequence of single-block writes, each block holds the last data written to it. |
| `Disk.ApplyUntouched` | memide.c:39-60 | Blocks that no write names are unchanged. |
| `Crash.HeaderRoundTrip` | log.c:85-113 | The block numbers that write_head encodes are the ones read_head decodes, and the rest of the header block is kept. |
| `Crash.RecoveredHome` | log.c:116-122 | Recovery of any bootable image changes exactly the home blocks named in the header, each to the last copy the log has of it. |
| `Crash.RecoveredEmpty` | log.c:116-122 | After recovery the header names no block, and recovery of such an image changes no home block. |
| `Crash.RecoveryCrash` | log.c:116-122 | Recovery cut after any number of its writes leaves an image from which recovery reaches the same home blocks. |
| `Crash.FirstCrash` | log.c:116-122 | What a series of crashes is: the first cuts a recovery after some of its writes, and the next recovery starts from what is then on disk. |
| `Crash.LogBlocks` | log.c:54-66 | The log is its header and the size - 1 blocks after it. |
| `Crash.ManyCrashes` | log.c:116-122 | Any number of crashes in successive recoveries changes nothing about the home blocks finally recovered. |
| `Crash.CutBeforeHead` | log.c:177-202 | A commit cut at or before the header write recovers to the home blocks from before the transaction. |
| `Crash.CutAfterHead` | log.c:177-202 | A commit cut anywhere after the header write recovers to the home blocks from after the transaction. |
| `Crash.CommittedImage` | log.c:193-202 | A completed commit leaves the transaction in the home blocks and an empty log. |
| `Crash.EveryCutBoots` | log.c:85-96 | Every cut of a commit leaves a header that recovery accepts. |
| `Crash.CrashAtomicity` | log.c:69-202 | For every transaction, every cut of its commit and every series of further crashes in recovery: all home blocks are those before it, or all are those after it, and the header write alone decides which. |
| `Crash.HistoryCrash` | log.c:69-202 | A crash anywhere in a history of transactions, and any series of further crashes in recovery, ends in the state between two of them; every transaction whose writes were complete is kept, and none after the one being committed. |
| `BufferCache.PutFirst` | bio.c:133-137 | Linking a buffer in after the head puts it first in the circular list and keeps both pointer chains consistent. |
| `BufferCache.TakeOut` | bio.c:131-132 | Unlinking a buffer removes exactly it from the list. |
| `BufferCache.Replace` | bio.c:61-140 | One buffer may change without breaking: at most one buffer per block, clean buffers equal to the disk, unbuffered blocks on disk as readers must see them. |
| `BufferCache.Bcache.constructor` | bio.c:39-55 | binit builds a well-formed list of all buffers, all of them recyclable. |
| `BufferCache.Bcache.LinkFirst` | bio.c:133-137 | The pointer updates put a buffer at the front of the recency list. |
| `BufferCache.Bcache.Unlink` | bio.c:131-132 | The pointer updates take a buffer out of the recency list. |
| `BufferCache.Bcache.FindCached` | bio.c:68-75 | The forward scan finds the buffer of a block if there is one. |
| `BufferCache.Bcache.FindRecyclable` | bio.c:80-91 | The backward scan finds the least recently used buffer with no reference and no dirty flag. |
| `BufferCache.Bcache.Bget` | bio.c:61-92 | Returns the one buffer of the block, or recycles the least recently used clean one; panics exactly when there is neither; never recycles a dirty buffer. |
| `BufferCache.Bcache.Iderw` | memide.c:39-60 | A dirty buffer goes to the disk, any other is filled from it, and the disk writes are recorded in order; panics, changing nothing, exactly under its four tests. |
| `BufferCache.Bcache.Bread` | bio.c:96-105 | The buffer returned holds the latest contents of the block, logged or on disk, and the disk does not change. |
| `BufferCache.Bcache.Bwrite` | bio.c:109-115 | One block write, of the data of the buffer, to its own block. |
| `BufferCache.Bcache.Brelse` | bio.c:120-140 | Drops the reference; with the last one the buffer moves to the front; the disk and what readers see are unchanged. |
| `Reservation.StepKeeps` | log.c:125-174 | Every step of begin_op, log_write, end_op and commit keeps: distinct logged numbers, room for what the running calls may still add, no call running during a commit. |
| `Reservation.RunInvariant` | log.c:125-233 | In every reachable state logged blocks plus unused budgets fit LOGSIZE, logged numbers are distinct, and commit runs alone. |
| `Reservation.CommittingPanicUnreachable` | log.c:152-153 | The panic "log.committing" cannot happen. |
| `Reservation.EndIs` | log.c:146-163 | end_op panics exactly during a commit and otherwise commits exactly for the last call. |
| `Reservation.LogReused` | log.c:125-202 | A run in which a call logs a block and ends, the commit clears the log, and the next call begins with all of it. |
| `Reservation.EnterInBounds` | log.c:223-229 | A block that passed the tests before others logged theirs still has a slot in lh.block. |
| `Reservation.BudgetSufficesIff` | log.c:218-219 | A call within its budget of MAXOPBLOCKS is never refused in any run if and only if the log has more than LOGSIZE blocks; mkfs.c makes it exactly LOGSIZE. |
| `Reservation.AbsorbedBlockRefusedIff` | log.c:218-229 | Some run refuses a call a block it has already logged, which absorption would take, if and only if the log has at least two blocks. |
| `Reservation.RunBound` | log.c:214-233 | In every run at most min(LOGSIZE, size + 1) blocks are logged, none in a log of fewer than two blocks: the tests come before the lock, so three calls can pass at one count. |
| `Reservation.CommitsWithinIff` | log.c:193-233 | Every commit of every run finds fewer than m blocks if and only if that maximum is below m; FullCommit is the run that reaches it. |
| `Reservation.CommitGrantedIff` | log.c:178-202 | Every run grants commit a spare buffer and room in the log area if and only if log and cache are larger than LOGSIZE, or the log holds nothing; param.h and mkfs.c make both exactly LOGSIZE. |
| `Log.ReadPair` | log.c:75-76 | Two breads give two different locked buffers with the latest contents of both blocks. |
| `Log.CopyToLog` | log.c:182-188 | One turn of write_log: the logged block goes to its slot in the log and stays pinned. |
| `Log.CopyHome` | log.c:74-80 | One turn of install_trans: the copy in the log goes to the home block. |
| `Log.FillHeader` | log.c:107-110 | The loop writes count and numbers over the old header block. |
| `Log.WriteHead` | log.c:102-113 | One block write, of the header with the current numbers. |
| `Log.WriteLog` | log.c:178-190 | The disk writes are exactly the log writes of the transaction, in order, and no home block is written. |
| `Log.InstallTrans` | log.c:70-82 | The disk writes are exactly the home writes of the transaction, in order, and the buffers of its blocks become clean. |
| `Log.SpareLeft` | log.c:178-190 | With fewer logged blocks than buffers there is always a buffer to read into. |
| `Log.CommitCrash` | log.c:69-202 | A crash after any number of the writes that this code issues, and any number of crashes in recovery after it, leaves all of the transaction or none. |
| `Log.Log.constructor` | log.c:54-66 | initlog sets up an empty header over the log area. |
| `Log.Log.Commit` | log.c:193-202 | The block writes of commit are CommitWrites of the pending transaction, so that CrashAtomicity speaks about this code; afterwards the disk is what readers see, nothing is pinned and the log is empty. |
| `Log.Log.LogAll` | log.c:196-197 | write_log and write_head: the header then spells the transaction. |
| `Log.Log.InstallAll` | log.c:198-200 | install_trans, and the header cleared. |
| `Log.Log.TryBegin` | log.c:129-139 | Space is reserved exactly when no commit runs and the reservation fits. |
| `Log.Log.EndOp` | log.c:146-163 | The last call to end starts the commit; the others wake a waiter; the panic exactly while committing. |
| `Log.Log.LogWrite` | log.c:214-233 | Absorbs a block already logged, appends one that is not, pins its buffer; refuses exactly under the three tests. |
| `Log.Log.ReadHead` | log.c:86-96 | The numbers read are those the header on disk spells. |
| `Log.Log.CopyHead` | log.c:91-94 | The copy loop takes exactly n numbers. |
| `Log.Log.RecoverFromLog` | log.c:116-122 | The block writes of recovery are RecoveryWrites of the image, and the disk becomes Recovered of it. |
| `CondVar.ExclusiveStep` | ulib.c:126-144 | Every step keeps each of the lock words and ptable.lock with one holder. |
| `CondVar.NoLostWakeupStep` | sysproc.c:127-147 | Every step keeps: nobody asleep on a free lock word unless a wake call is on its way. |
| `CondVar.TalliedStep` | ulib.c:154-174 | Every step keeps cvnum equal to the number of waiters counted in, through the hand-over of cvslock to ptable.lock. |
| `CondVar.RunInvariant` | ulib.c:126-174 | All of these hold in every reachable state of every interleaving of lock, unlock, wait and broadcast. |
| `CondVar.MutualExclusion` | ulib.c:126-144 | No two processes hold the mutex, and no two hold cvslock. |
| `CondVar.NobodyForgotten` | ulib.c:126-144 | Nobody sleeps on a free lock except while a releaser is on its way to futex_wake. |
| `CondVar.Wait2AlwaysSleeps` | sysproc.c:153-178 | futex_wait2 always finds *loc == val, so it never returns -1. |
| `CondVar.BroadcastRunsOnce` | ulib.c:165-174 | When cv_bcast enters the wake call exactly cvnum processes sleep on &cvnum, and the loop ends after one turn. |
| `CondVar.BroadcastWakesAll` | ulib.c:154-174 | Every waiter that released the mutex before the wake call is awake after it. |
| `CondVar.FutexCalls` | sysproc.c:127-190 | From any state: futex_wait and futex_wait2 sleep if and only if the word still has the value given, cv_bcast wakes again if and only if somebody is missing, and a wake call wakes exactly the sleepers on its word. |
| `CondVar.CallsComplete` | ulib.c:126-174 | Every call of every run, seen by what it does to the shared words: lock takes the mutex; unlock gives it and wakes; cv_wait takes cvslock, gives the mutex and wakes, counts itself, gives cvslock and wakes, sleeps, is woken by a broadcast and takes the mutex again; cv_bcast takes cvslock, wakes the waiters, takes them off the count, gives cvslock and wakes. Each returns where it should, holding the mutex or not. |
| `CondVar.WaitReturnsHolding` | ulib.c:154-163 | cv_wait returns with the mutex held. |
| `CondVar.WaiterReturns` | ulib.c:154-174 | A run in which a waiter sleeps, is woken by a broadcast and returns. |
| `Frames.MapNewKeeps` | vm.c:206-232 | kalloc and mappages for a new page keep the invariant of counts, free list and entries. |
| `Frames.SharePrivateKeeps` | vm.c:416-476 | Sharing a private page copy-on-write, both entries made read-only and the count raised, keeps it. |
| `Frames.ShareShmKeeps` | vm.c:376-398 | Mapping a shared-memory page into the child keeps it. |
| `Frames.CopyOutKeeps` | vm.c:683-711 | Giving a writer its own copy of a frame with count above 1, and lowering that count, keeps it. |
| `Frames.ClaimKeeps` | vm.c:747-759 | Making the last holder of a copy-on-write frame writable keeps it. |
| `Frames.ReleaseKeeps` | vm.c:238-278 | Unmapping a page, freeing the frame exactly when its count is 1, keeps it. |
| `Frames.ForgetKeeps` | vm.c:282-298 | Losing the entry of page 0 without freeing its frame keeps it, and the reference is on record as lost. |
| `Frames.FreeIff` | kalloc.c:100-152 | In every state that keeps the invariant a frame is free if and only if no entry maps it, the kernel does not own it and no reference to it was lost. |
| `Frames.FramesReturned` | vm.c:238-278 | Dropping the entries of a range lowers every count by exactly the dropped entries of that frame, and frees exactly the frames whose count reaches 0. |
| `Frames.SpaceFrames` | vm.c:282-298 | The same for a whole address space, with the frame of page 0 as the one exception. |
| `Frames.GivenBack` | vm.c:206-278 | Mapping an empty range and dropping it gives back the same entries, counts and free frames. |
| `Frames.StoreKeeps` | vm.c:683-759 | A store through a writable entry keeps it. |
| `Frames.SetBitsKeeps` | vm.c:302-331 | Changing the present and user bits of an entry keeps it. |
| `Frames.KernelTakeKeeps` | kalloc.c:131-152 | kalloc for the kernel itself keeps it. |
| `Frames.KernelGiveKeeps` | kalloc.c:100-125 | kfree of such a frame keeps it, and its assertion that the count is 1 holds. |
| `Frames.Alone` | vm.c:747-759 | A frame with count 1 and one entry has no other entry and is not the kernel's. |
| `Frames.Unused` | kalloc.c:131-152 | A frame on the free list is mapped nowhere and not the kernel's. |
| `Cow.LoadsAgree` | mmu.h:140-153 | Under the refinement every load through a page table gives what the memory that processes see gives. |
| `Cow.MapNewRefines` | vm.c:206-232 | A new page is a new private page, or a new shared one, of the memory seen. |
| `Cow.SharePrivateRefines` | vm.c:416-476 | Sharing copy-on-write is copying the page. |
| `Cow.ShareShmRefines` | vm.c:376-398 | Mapping shared memory into a child is mapping the same page of the one store. |
| `Cow.CopyOutRefines` | vm.c:683-711 | Resolving a copy-on-write fault by copying makes that page reachable and changes no contents. |
| `Cow.ClaimRefines` | vm.c:747-759 | Resolving one by taking the frame over changes nothing that any process reads. |
| `Cow.ReleaseRefines` | vm.c:238-278 | Unmapping removes that page and no other. |
| `Cow.StoreRefines` | vm.c:683-759 | A store through a writable entry changes that process's private page alone, or the one shared page. |
| `Vm.Machine.constructor` | kalloc.c:46-68 | freerange puts every frame on the free list; no address space: the invariants hold. |
| `Vm.Machine.AllocUvm` | vm.c:206-232 | Adds zeroed pages in the range and nothing else, exactly when there are frames enough; otherwise takes back what it mapped, with the same entries, counts and free frames as before. |
| `Vm.Machine.CowPage` | vm.c:374-478 | One turn of cowuvm: shared memory shared, the gaps skipped, all else copy-on-write, the guard page included. |
| `Vm.Machine.Cowuvm` | vm.c:364-483 | The whole loop gives the child a copy of every private page, the guard page out of reach, and the same shared pages. |
| `Vm.Machine.Fork` | proc.c:190-246 | The child has the parent's layout and memory, but for its guard page, which is out of reach; all other address spaces are unchanged and no frame is taken. |
| `Vm.Machine.ResolveCow` | vm.c:674-796 | Exactly one of the two branches: a shared frame is copied and the page becomes reachable, the last holder's becomes writable and nothing else changes. |
| `Vm.CowSeenLoadsIff` | vm.c:674-796 | This leaves every load as it was if and only if the page was reachable already or nobody else holds the frame. |
| `Vm.Machine.GrowStack` | vm.c:852-872 | Stack growth maps zeroed pages down to the faulting page and a new guard below it. |
| `Vm.Machine.PageFault` | vm.c:592-946 | Retries exactly when the fault is a copy-on-write or stack fault it can resolve, with the exact new state of each; a kill changes nothing. |
| `Vm.Machine.ExpandStack` | vm.c:808-884 | The guard moves to the page below the faulting one, and the layout stays in order. |
| `Vm.Machine.UserStore` | vm.c:592-946 | A user store with the faults it meets: it ends after at most two of them, succeeds exactly on a page the process can reach, at or below the guard within the stack reserve, and on a last guard page that is shared copy-on-write, and stores in that process's page or the one shared page; a killed process changes nothing. |
| `Vm.Machine.DeallocUvm` | vm.c:238-278 | Drops exactly the present pages of the range, and the guard page; each frame is counted down by its dropped entries and freed when none is left. |
| `Vm.Machine.FreeVm` | vm.c:282-298 | The address space is gone and all others are unchanged; all its frames are counted down, and freed when unused, but for the one of page 0, which is lost. |
| `Vm.Machine.Shmbrk` | sysproc.c:78-125 | All four cases with their results and layouts; panics exactly when it runs out of frames, and never in the last branch. |
| `Vm.Machine.GrowHeap` | proc.c:169-185 | growproc by n bytes: fails, changing nothing, exactly at KERNBASE or without frames enough; otherwise maps or frees the pages between the two breaks. |
| `Vm.ShmGives` | sysproc.c:78-125 | What a caller of shmbrk gets: n bytes from the old break on, all reachable, and the next call gives what follows; it fails exactly when the area would not hold them, and a negative n gives the whole area back. |
| `Vm.HeapGives` | proc.c:169-185 | What a caller of growproc gets: a break moved by n bytes, every byte below it reachable down to shared memory, and no page above it. |
| `Vm.Machine.LoadPages` | vm.c:184-202 | The program's pages hold the loaded data. |
| `Vm.Machine.BuildImage` | exec.c:42-101 | exec's image: an unreachable null page, the program, the guard and one stack page. |
| `Vm.ExecAddresses` | exec.c:78-150 | In bytes, where exec puts guard page, stack, shared memory and break above the program. |
| `Vm.Machine.Exec` | exec.c:42-153 | The new image with its layout, then the old address space gone. |
| `Vm.Machine.KernelAlloc` | kalloc.c:131-152 | A frame for the kernel itself, from the same free list and counts as the processes' pages. |
| `Vm.Machine.KernelFree` | kalloc.c:100-125 | In every reachable state kfree of a kernel frame passes its assertion that the count is 1, and frees it. |
| `Vm.Machine.KernelFree2` | pipe.c:59-74 | kfree2 of such a frame frees it. |
| `Vm.StoreSeenBy` | vm.c:364-483 | A store to a private page is seen by its process alone, one to shared memory by exactly those who map the page. |
| `Kalloc.PushThreads` | kalloc.c:91-94 | Pushing a frame keeps the free list threaded through distinct frames of count 0. |
| `Kalloc.PopThreads` | kalloc.c:138-144 | So does popping one. |
| `Kalloc.Kmem.Kfree2` | kalloc.c:76-97 | The frame becomes the head of the free list with count 0. |
| `Kalloc.Kmem.Kfree` | kalloc.c:100-125 | Frees exactly when the count is 1; otherwise the assertion fails and nothing changes. |
| `Kalloc.Kmem.Kalloc` | kalloc.c:131-152 | Takes the head of the free list and sets its count to 1, or returns 0 when there is none. |
| `Kalloc.Kmem.InclRefCount` | kalloc.c:172-182 | One more reference to an allocated frame; the free list stays threaded. |
| `Kalloc.Kmem.DeclRefCount` | kalloc.c:183-192 | One reference fewer to a frame that has several. |
| `Kalloc.Kmem.Drop` | vm.c:267-273 | What deallocuvm does with a frame: freed with the last reference, counted down otherwise; the assertion in kfree holds. |
| `Eager.ShownLoads` | vm.c:336-361 | Seen through page tables or as eager copying holds them, pages read the same. |
| `Eager.MakesAgree` | exec.c:42-101 | A new image is the same under both. |
| `Eager.EndsAgree` | vm.c:282-298 | So is the end of an address space. |
| `Eager.ForkReadsIff` | vm.c:364-483 | The child reads at every page what its parent reads if and only if the parent's guard page was out of reach. |
| `Eager.ForksAgree` | vm.c:364-483 | Then cowuvm does what copying every reachable page, as copyuvm does, would do. |
| `Eager.ForkDiffers` | vm.c:364-483 | Otherwise no eager copy gives the child what it gets: it reads the parent's data there and is killed here. |
| `Eager.StoresAgree` | vm.c:592-946 | A user store with its faults is one store, or stack growth and one store, of the reference. |
| `Eager.StoreAgreesIff` | vm.c:674-872 | A store is one of the reference if and only if it does not get through on a guard page at the end of the stack reserve. |
| `Eager.StoreAgreesBefore` | vm.c:674-872 | Told before the store: if and only if it is not to such a guard page while that page is shared copy-on-write. |
| `Eager.StoreOn` | vm.c:592-946 | The same for a store on the machine. |
| `Eager.ShmsAgree` | sysproc.c:78-125 | shmbrk is the same under both. |
| `Eager.HeapsAgree` | proc.c:169-185 | So is growproc. |
| `Eager.StepAgrees` | vm.c:206-946 | Every fair step of exec, exit, fork, user stores, shmbrk and growproc is that step of the reference. |
| `Eager.RunRefines` | vm.c:206-946 | Over every run of fair steps, eager copying of the same calls lets every process read the same at every page all along. |
| `Eager.RefinesIff` | vm.c:206-946 | A run has such an eager counterpart if and only if no fork finds the guard page reachable and no store gets through at the end of the reserve. |
| `Eager.EagerGuardRun` | vm.c:336-361 | In eager copying of exec, fork, a store to the guard page, fork, the second child reads what the parent stored. |
| `Eager.GuardLost` | vm.c:364-796 | The same run on the machine ends with the second child unable to read it. |
| `Inodes.GetPut` | fs.c:390-395 | A block number stored in the indirect block reads back, and the others are unchanged. |
| `Inodes.OwnedOnce` | fs.c:373-437 | No block has two owners: different slots of all inodes hold different blocks. |
| `Inodes.FreeUnheld` | fs.c:58-80 | A block the bitmap calls free is in no slot of any inode. |
| `Inodes.AllocOwned` | fs.c:374-402 | Entering a free block in an empty slot keeps ownership. |
| `Inodes.WritingRound` | fs.c:498-504 | One turn of writei keeps: the bytes so far written, all other bytes of all files unchanged, no holes. |
| `Inodes.FileSystem.Balloc` | fs.c:58-80 | The first free block, marked used and zeroed; the panic exactly when none is free. |
| `Inodes.FileSystem.Bmap` | fs.c:374-402 | The block behind a file position, allocated (with the indirect block) when it is the next one. |
| `Inodes.FileSystem.Writei` | fs.c:482-511 | Splices the bytes into the file and extends it; -1 exactly under its tests, changing nothing; every other file is unchanged. |
| `Inodes.FileSystem.Readi` | fs.c:454-477 | Returns exactly the slice of the file, cut at its end, and changes nothing. |
| `Inodes.FileSystem.Itrunc` | fs.c:410-437 | The file is empty, exactly its blocks are freed, no other file changes, and bfree never panics. |
| `Directories.Dirlookup` | fs.c:524-547 | Finds the slot that holds a name, comparing 14 characters, exactly when the directory binds it. |
| `Directories.Dirlink` | fs.c:551-577 | Refuses exactly a bound name; otherwise binds it and no other changes; the entry goes to the first free slot, or to a new one at the end. |
| `Directories.Unlinked` | sysfile.c:223-225 | Zeroing the slot unbinds its name and no other. |
| `Directories.Isdirempty` | sysfile.c:175-187 | True exactly when every entry from the third on is free, which in a directory that begins with "." and ".." says that no other name is bound. |
| `Directories.Skipelem` | fs.c:594-616 | Takes the first of the path's elements, defined as its non-empty pieces between slashes; 0 exactly when there is none; the rest is empty exactly after the last. |
| `Directories.Namex` | fs.c:623-655 | An absolute path is walked from the root, whatever the current directory is, any other from the current directory, along its elements; nameiparent stops one element early, in a directory, with the last name. |
| `Directories.WalkIff` | fs.c:623-655 | The walk reaches an inode if and only if there is a chain of directories in which each element, cut to 14 characters, stands for the next one. |
| `Directories.ElementsAre` | fs.c:594-616 | The elements of a path are those of its parts at any slash; a part without a slash is one, unless it is empty. |
| `Directories.SameName` | fs.c:515-519 | Two names are the same to namecmp if and only if they are equal or agree in their first 14 characters. |
| `Directories.ParentWalk` | fs.c:623-655 | The walk of nameiparent is the walk of namei on all elements but the last. |
| `Directories.ParentThenLookup` | fs.c:623-655 | Looking the last name up in what nameiparent returns gives what namei returns. |
| `Links.CreateKeeps` | sysfile.c:247-289 | create keeps every link count at least what names, subdirectories and calls in progress need, with nothing to spare added. |
| `Links.EnterKeeps` | sysfile.c:150-157 | The new name of sys_link takes over the count that the call had added. |
| `Links.CountBackKeeps` | sysfile.c:164-170 | The error path of sys_link undoes its count. |
| `Links.EraseKeeps` | sysfile.c:223-230 | sys_unlink up to the release of the directory: the erased name's count is still held by the call. |
| `Links.FreeKeeps` | fs.c:334-354 | Freeing an inode keeps the counts of all others, exactly if it had no entries. |
| `Links.StepKept` | sysfile.c:124-289 | Every step of every interleaving of create, link, unlink, lookups (also of "..") and iput keeps the invariant. |
| `Links.RunInvariant` | sysfile.c:124-289 | It holds in every reachable state. |
| `Links.NamesHold` | sysfile.c:216-217 | Every entry stands for an allocated inode with nlink >= 1 that is not being freed, so the panic "unlink: nlink < 1" cannot happen. |
| `Links.FreesOnlyUnnamed` | fs.c:334-354 | iput never frees an inode that an entry other than ".." names or that link or unlink is at work on, although it drops icache.lock before it frees. |
| `Links.UnlinksEmpty` | sysfile.c:216-225 | sys_unlink takes the name of a directory only when it has no entries. |
| `Links.FreesOnlyUnheld` | fs.c:334-354 | Nor one that another holds, as long as no lookup of ".." has met a parent that was gone or being freed. |
| `Links.ParentHolds` | sysfile.c:247-289 | In every run the ".." of a directory that has a name stands for an allocated directory with nlink >= 1 that is not being freed. |
| `Links.DanglesIff` | fs.c:334-354 | Freeing a directory leaves a ".." that stands for nothing if and only if a directory made in it has been removed and is still allocated. |
| `Links.RemovedHeld` | fs.c:334-354 | Where inodes without links are held (RunDirectories), a removed directory that is still allocated is held itself, or a directory made in it has a name. |
| `Links.RunDirectories` | sysfile.c:124-289 | In every run the link counts of directories are exact, whatever leaks, and inodes without links stay only while they are held, if that was so at the start. |
| `Links.SoundIff` | fs.c:253-344 | Over every run, nobody ever holds a freed inode (whose ilock panics) or one that an iput is freeing if and only if no lookup of ".." meets a parent that is gone or being freed; it then was a lookup in a removed directory. |
| `Links.ParentFreed` | fs.c:334-354 | A concrete run: a process in a removed directory looks up ".." between the test and the free of iput, and holds a freed inode. |
| `Links.CountsNeverNegative` | sysfile.c:216-240 | In every run no link count goes below zero. |
| `Links.CountsExact` | sysfile.c:124-289 | As long as no directory is freed with entries in it, nlink of every inode is exactly names plus subdirectories plus calls in progress. |
| `Links.FreeExactIff` | fs.c:334-354 | Freeing keeps the counts exact if and only if the freed directory is empty. |
| `Links.RemovedDirectoryLeaks` | sysfile.c:247-289 | A concrete run (mkdir, cd, unlink, create, cd away) ends with a link that no name accounts for. |
| `SysFile.LinkRuns` | sysfile.c:125-162 | sys_link is a run of its steps in Links: afterwards no call is in progress and exact counts stay exact. |
| `SysFile.UnlinkRuns` | sysfile.c:190-238 | So is sys_unlink; a directory is never unlinked from itself. |
| `SysFile.LookupRuns` | fs.c:524-547 | Every name but "." leads to an inode with a link, except the ".." of a directory that has lost its own name. |
| `SysFile.TriedSame` | fs.c:524-547 | A call that looks a name up and gives up changes nothing, unless that name is the ".." of a removed directory and some inode without links is held by nobody. |
| `SysFile.TriedFrees` | fs.c:334-354 | It frees what it looked up exactly when that had neither links nor references. |
| `SysFile.LinkLookups` | sysfile.c:125-162 | After sys_link the new name leads to the inode, every other lookup finds what it found, and only that inode has one link more. |
| `SysFile.UnlinkLookups` | sysfile.c:190-238 | After sys_unlink the name leads nowhere, every other lookup finds what it found, and the inode has one link less, and the parent of a directory too. |
| `SysFile.CreateLookups` | sysfile.c:247-289 | After create the name leads to the new inode with its one link; a new directory has itself for "." and its parent for ".."; every other lookup finds what it found. |
| `SysFile.PutLookups` | fs.c:334-354 | iput changes no lookup outside what it frees, and frees exactly an inode without links at its last reference. |
| `SysFile.Namespace.constructor` | proc.c:131-164 | Just the root, held by the first process; the counts are exact. |
| `SysFile.Namespace.Put` | fs.c:334-354 | iput: the inode and its entries go exactly with the last reference to an inode without links; exact counts stay exact if it had no entries. |
| `SysFile.Namespace.SysLink` | sysfile.c:125-171 | Links exactly when the old name leads to an allocated file and the new path has a directory in which the new name is free, as "." and ".." never are; then one more name and one more link. Hangs exactly when all but the last holds and the new name leads back to its directory, as "." does: dirlink's iput waits for the lock that sys_link holds. Panics exactly when the old name is a ".." that stands for nothing; a refused call leaves all as it was, unless its old name is the ".." of a removed directory and nobody held the parent. |
| `SysFile.Namespace.SysUnlink` | sysfile.c:190-244 | Succeeds exactly for a name other than "." and ".." that is there and no non-empty directory; the counts of inode and parent go down, and the inode is freed exactly when that was its last link and nobody holds it. |
| `SysFile.Namespace.Create` | sysfile.c:247-289 | Opens an existing file for a file, refuses anything else that exists, "." and ".." included, panics exactly on a ".." that stands for nothing, and otherwise makes the inode, its name and the parent's count. |
| `Malloc.UnitsSufficeIff` | umalloc.c:69 | The units asked for hold nbytes if and only if nbytes + 7 does not wrap 32 bits. |
| `Malloc.SbrkAskedIff` | umalloc.c:52-54 | sbrk is asked for the whole block if and only if it is below 2 GB; otherwise for zero or less. |
| `Malloc.BlocksApart` | umalloc.c:24-90 | Blocks, free or live, do not overlap. |
| `Malloc.Join` | umalloc.c:33-41 | Joining two touching blocks keeps the partition of the heap into blocks. |
| `Malloc.Cut` | umalloc.c:79-81 | So does cutting one. |
| `Malloc.FreeGood` | umalloc.c:33-42 | free with either or both joins: the block is free, no two free blocks touch, all else is as it was. |
| `Malloc.FreeRing` | umalloc.c:33-43 | The pointers free leaves link the new free list in address order with one wrap. |
| `Malloc.FindGap` | umalloc.c:30-32 | The search ends, at the last free block below the one being freed. |
| `Malloc.Unite` | umalloc.c:33-42 | The header updates are those joins. |
| `Malloc.CarveGood` | umalloc.c:75-82 | Exact fit or split: a new live block of the size asked for, from free memory; base is never handed out. |
| `Malloc.NoneFits` | umalloc.c:74-87 | Back at freep, every free block has been looked at. |
| `Malloc.GrantedUnits` | umalloc.c:63-90 | malloc puts exactly the units of the returned block to use, none of which was in use. |
| `Malloc.ReleasedUnits` | umalloc.c:24-44 | free takes exactly the units of the block out of use. |
| `Malloc.Allocator.constructor` | umalloc.c:21-22 | Nothing live and nothing owned at the start. |
| `Malloc.Allocator.Free` | umalloc.c:24-44 | The whole of free on the class: Valid is kept, Released describes the new heap. |
| `Malloc.Allocator.Morecore` | umalloc.c:46-61 | At least 4096 units and at least those asked for are added to the free blocks, or nothing on failure. |
| `Malloc.Allocator.Malloc` | umalloc.c:63-90 | Fails exactly when nothing fits and sbrk refuses; otherwise a block of exactly the units asked for; memory is asked for only when nothing fits; the loop ends, also after morecore. |
| `Shell.GetToken` | sh.c:264-306 | The next token of the line and the position after it and its blanks. |
| `Shell.Separators` | sh.c:257-306 | Which characters separate words, which are tokens of their own, and that all others are part of a word. |
| `Shell.Peek` | sh.c:309-318 | Whether the next token's first character is among the given symbols. |
| `Shell.ParseRedirs` | sh.c:373-395 | The loop parses as the grammar on tokens. |
| `Shell.ParseBlock` | sh.c:398-411 | So does a parenthesised block. |
| `Shell.ParseExec` | sh.c:414-444 | So does a simple command: words and redirections in any order, at most 9 words. |
| `Shell.ParsePipe` | sh.c:360-370 | So does a pipeline. |
| `Shell.ParseLine` | sh.c:343-357 | So does a line with & and ;. All of these end. |
| `Shell.ParseCmd` | sh.c:326-340 | The parse of the whole line, or the first panic with its message. |
| `Shell.WordsApart` | sh.c:293-297 | Two words of a line are the same or have a character between them. |
| `Shell.EndsOutside` | sh.c:448-491 | No terminator lands inside a word. |
| `Shell.NulTerminate` | sh.c:448-491 | Writes a NUL at the end of every word of the command and nowhere else. |
| `Shell.TreeReads` | sh.c:448-491 | After it, the C string at the start of each word is exactly its token. |
| `Shell.ParseInPlace` | sh.c:326-340 | parsecmd on its buffer: the strings the command points to afterwards spell what the grammar finds in the line. |
| `Grammar.ItemsParse` | sh.c:414-444 | Words and redirections in any order parse to one command with its words, wrapped in the redirections in order. |
| `Grammar.LineParse` | sh.c:343-444 | Every line of the grammar, with | tighter than & and & tighter than ;, and with | and ; grouping to the right, parses to its meaning, parenthesised or not. |
| `Grammar.ItemsWritten` | sh.c:414-444 | Whatever a simple command consumed is such a list, of at most 9 words. |
| `Grammar.LineWritten` | sh.c:343-444 | Whatever parses is a line of the grammar with the tree as its meaning. |
| `Grammar.ParsesIff` | sh.c:326-444 | A command line parses to a tree if and only if it is a line of the grammar that means this tree. |
| `Grammar.PanicsIff` | sh.c:326-444 | It panics if and only if it is no line of the grammar. |
| `Grammar.Unambiguous` | sh.c:343-444 | Lines written with the same tokens mean the same. |
| `Grammar.RenderIsLine` | sh.c:264-306 | A line written out with blanks between its tokens is read as that line. |
| `Grammar.AsLineOk` | sh.c:343-444 | Every command tree with proper words and at most 9 arguments is the meaning of a line, with parentheses only where the tree does not have the shape its place asks for. |
| `Grammar.PrintThenParse` | sh.c:326-444 | Round trip: every such tree, printed as that line and parsed, comes back. |
| `Grammar.ParsePrintParse` | sh.c:326-444 | Whatever parses, printed and parsed again, gives the same tree. |
| `ProcTree.Ptable.constructor` | proc.c:131-164 | One process, init, in an otherwise unused table. |
| `ProcTree.Ptable.AllocProc` | proc.c:75-92 | The first unused slot, or none exactly when all are used. |
| `ProcTree.Ptable.Wakeup1` | proc.c:484-491 | Exactly the sleepers on the channel become runnable. |
| `ProcTree.Ptable.WakeupFutex1` | proc.c:503-514 | The same, and the result is their number. |
| `ProcTree.SleepersAre` | proc.c:503-514 | What wakeupfutex1 counts is the number of processes asleep on the channel. |
| `ProcTree.SleepAndWakeup` | proc.c:445-500 | Who sleeps on a channel is woken by a wakeup of it, a kill or an exit and by nothing else; a wakeup leaves nobody asleep on its channel and touches nobody else. |
| `ProcTree.WaitReturns` | proc.c:297-340 | wait comes back with a reaped child or without children, or sleeps on itself, exactly as its scan found. |
| `ProcTree.KillIs` | proc.c:536-553 | kill marks its process and makes a sleeper runnable, and changes nothing else. |
| `ProcTree.UnmarkedIff` | proc.c:75-92 | Over every run the slots that new processes get are not marked as killed if and only if kill never hits a free slot and no fork is given up after its new process was killed. |
| `ProcTree.BornUnkilled` | proc.c:190-246 | As long as that holds a new process starts out not killed. |
| `ProcTree.KillZero` | proc.c:536-553 | A concrete run: kill(0) finds a free slot, and the next process made is killed from the start. |
| `ProcTree.FamilyRun` | proc.c:190-340 | A run of fork, a wait that sleeps, the exit of the child and the wait that returns its number. |
| `ProcTree.Ptable.Kill` | proc.c:536-553 | Marks and wakes the process in the first slot with that pid, or finds none. |
| `ProcTree.Ptable.Exit` | proc.c:274-290 | exit under the lock: parent woken, children given to init, init woken exactly if one is a zombie, the process a zombie. |
| `ProcTree.Ptable.WaitScan` | proc.c:304-334 | Reaps a zombie child, reports no children or being killed, or finds that it must sleep, each exactly when the table says so. |
| `ProcTree.TreeStep` | proc.c:190-340 | Every step of fork, exit, wait, sleep, wakeup and kill keeps the process tree in order. |
| `ProcTree.PidStep` | proc.c:75-340 | Every step keeps pids distinct and the record of exits and reaps consistent. |
| `ProcTree.RunInvariant` | proc.c:190-340 | Both hold in every reachable state. |
| `ProcTree.ZombieChildless` | proc.c:272-290 | In every run a zombie has no children. |
| `ProcTree.ParentAlive` | proc.c:190-292 | In every run every process past EMBRYO but init has a live parent that is no zombie. |
| `ProcTree.WaiterWoken` | proc.c:272-339 | In every run nobody is asleep in wait while a child of theirs is a zombie. |
| `ProcTree.ReapedOnce` | proc.c:297-340 | In every run no pid is returned by wait twice, only exited ones are, and an exited process stays a zombie until it is reaped. |
| `ProcTree.PidsUnique` | proc.c:75-92 | In every run processes in the table have different pids. |
| `SleepLock.SleepStep` | sleeplock.c:23-42 | Every step keeps: who sleeps or is about to will be woken if the lock is free. |
| `SleepLock.RunInvariant` | sleeplock.c:23-42 | The invariant holds in every interleaving, down to the two spin locks. |
| `SleepLock.MutualExclusion` | sleeplock.c:23-42 | At most one process owns a sleep lock, and lk->pid names it. |
| `SleepLock.NoLostWakeup` | proc.c:445-500 | While the lock is free and no releaser is on the way to wakeup, nobody is asleep on it or about to be. |
| `SleepLock.CallsComplete` | sleeplock.c:23-42 | Every acquiresleep that returns has taken the lock once and its caller owns it; every releasesleep has given it up once. |
| `SleepLock.SleeperGetsLock` | sleeplock.c:23-42 | A run in which a process sleeps on a lock, is woken by its releaser and gets it. |
| `SleepLock.ReleaseWakesAll` | sleeplock.c:35-42 | When a releaser has woken the sleepers, the lock is free and nobody sleeps on it or is about to. |
| `Regex.PlainMatches` | grep.c:73-106 | Without special characters but dots, grep finds the lines that contain the pattern, after ^ those that begin with it, before $ those that end with it; a starred character between ^ and $ finds the lines made of it. |
| `Regex.HereOne` | grep.c:93-94 | A literal or dot takes one character, and the rest of the pattern matches the rest. |
| `Regex.HereStar` | grep.c:89-90 | A starred item takes some run of its characters, and the rest of the pattern matches what follows. |
| `Regex.MatchHere` | grep.c:85-96 | True exactly when a prefix of the text (all of it, for a final $) is in the language of the pattern, which is defined by cutting a word into one piece per item. |
| `Regex.MatchStar` | grep.c:99-106 | True exactly when some number of repetitions leaves a text where the rest matches; the mutual recursion ends. |
| `Regex.Match` | grep.c:73-82 | True exactly when some substring (a prefix after ^) is in the language, for all patterns and texts. |
| `Pipe.Wraps` | pipe.c:83-104 | Counters that wrap at 2^32 tell full from empty, since they are at most 512 apart. |
| `Pipe.Ring.constructor` | pipe.c:23-56 | An empty pipe with both ends open. |
| `Pipe.Ring.Store` | pipe.c:91 | The byte goes where the wrapped counter says, and no unread byte is overwritten. |
| `Pipe.Ring.Fetch` | pipe.c:114 | The oldest unread byte. |
| `Pipe.Ring.Write` | pipe.c:77-96 | A stretch of pipewrite between two sleeps: stores what fits, in order; done, failed or asleep exactly as specified. |
| `Pipe.Ring.Read` | pipe.c:99-119 | A stretch of piperead: the oldest bytes, as many as asked for or there are. |
| `Pipe.WriteIs` | pipe.c:77-96 | A stretch of pipewrite stores its next bytes, all or as many as fit; it is done if and only if all are stored, and otherwise sleeps, having woken the readers, if and only if somebody may still read and it is not killed. |
| `Pipe.ReadIs` | pipe.c:99-119 | A stretch of piperead sleeps or fails exactly on an empty pipe that may still be written; otherwise it takes the oldest bytes, as many as asked for or there are, and wakes the writers. |
| `Pipe.CloseIs` | pipe.c:59-74 | pipeclose shuts its end for good, wakes the other side and touches no byte. |
| `Pipe.Ring.Close` | pipe.c:59-74 | The same on the pipe, which is to be freed exactly when both ends are shut. |
| `Pipe.WriteStoresAll` | pipe.c:77-96 | Over every interleaving, a pipewrite with all its sleeps stores its bytes in order, none twice, and returns n if and only if it has stored them all. |
| `Pipe.Fifo` | pipe.c:76-119 | Over every interleaving, bytes read are a prefix of bytes stored and the rest, at most 512, is in the ring. |
| `Pipe.ReadZero` | pipe.c:99-119 | piperead of n > 0 returns 0 if and only if the pipe is empty with its write end closed. |
| `Pipe.WritersOk` | pipe.c:76-119 | In every interleaving a writer sleeps only on a full pipe whose read end is open. |
| `Pipe.ReaderKeptIff` | pipe.c:76-119 | Over every run, no reader ever sleeps beside unread bytes or a closed write end if and only if no write of more than 512 bytes, killed or unread, meets a sleeping reader: it returns without a wakeup. |
| `Pipe.ReaderLeftAsleep` | pipe.c:83-88 | A concrete run in which this happens. |
| `Console.PressSound` | console.c:182-217 | Typing keeps r <= w <= e <= r + 128, leaves committed characters as they are, and keeps newlines and ^D out of the line being edited. |
| `Console.TypedLine` | console.c:182-217 | With room in the buffer, keys that end no line leave the line in which each erasing key has taken the nearest remaining character to its left and ^U all of them. |
| `Console.TypedLines` | console.c:182-217 | Over any lines that fit the buffer, what is committed to readers is exactly the edited lines with their newlines and ^Ds. |
| `Console.FullBuffer` | console.c:206-214 | A character that fills the buffer commits the line; one for a full buffer is dropped. |
| `Console.EraseUndoes` | console.c:199-214 | A character and a key that erases it leave no trace if and only if the character does not fill the buffer. |
| `Console.DrainIs` | console.c:225-254 | What a read returns by the characters in front of it: plain ones up to its length, a newline included, a ^D taken only for an empty result; asleep or failed exactly when they run out. |
| `Console.DrainSound` | console.c:225-254 | So does reading. |
| `Console.DrainGives` | console.c:225-254 | A reader gets the committed characters in order, without ^D. |
| `Console.DrainEof` | console.c:241-249 | A ^D is consumed only for a result of length 0. |
| `Console.SavedEof` | console.c:241-249 | A read that stops before a ^D with characters in hand leaves it, and the next read returns 0 at once. |
| `Console.OneLine` | console.c:250-253 | A result has no newline but its last character. |
| `Console.ReadInOrder` | console.c:182-259 | Over every run of key presses and reads, readers together have the consumed characters without the ^Ds, in order. |
| `Console.Keyboard.constructor` | console.c:173-178 | An empty buffer. |
| `Console.Keyboard.KillLine` | console.c:192-198 | The loop for ^U stops exactly at w. |
| `Console.Keyboard.Intr` | console.c:187-216 | One character, with all indices wrapping at 2^32, does what Press says. |
| `Console.Keyboard.Read` | console.c:231-253 | A stretch of consoleread between two sleeps does what Drain says. |

## Left out

- Boot, assembly, interrupts, segments, the IDE driver, device files and the T_DEV branches of readi and writei: no unbounded behaviour to state.
- vm.c's two-level page directories and walkpgdir: a page table is a map from pages to entries; page-table pages are not counted among the kernel's frames.
- The vdso pages, copyout and the argument strings that exec puts on the stack.
- `Vm.Machine.PageFault`: enough free frames are a precondition, as vm.c:699 takes them for granted. The code also kills a process that faults where no page-table page exists yet; the model has no page-table pages.
- `Vm.Machine.UserStore`: has the same precondition.
- `Vm.Machine.Exec`: out of memory, exec frees the new image and fails, which is not modelled. Nor is the failure of cowuvm for want of page-table pages.
- `Vm.Machine.GrowHeap`: shrinking below shmtop, into shared memory and the stack, is not modelled.
- `Vm.Machine.Shmbrk`: the 32-bit wrap of shmbreak + n is not modelled.
- Sizes of counters that cannot wrap in practice: pids, reference counts, the 16-bit nlink.
- `Inodes.FileSystem.Balloc`: the bitmap is a sequence of bits; their packing into bytes is not modelled. The inode layer works on blocks directly, without the log and the buffer cache below it, and a change is atomic there.
- `Inodes.FileSystem.Bmap`: is called for a block of the file or the next one, as readi and writei do on files without holes, so its panic for numbers out of range is not modelled.
- The inode cache (iget, ilock, iupdate, ialloc) beyond reference counts.
- `BufferCache.Bcache.Bread`: waiting for a buffer that another process holds is a precondition; readers that overlap a commit are not interleaved with it.
- `BufferCache.Bcache.Brelse`: that callers log or write what they changed before they release it is a precondition.
- `Reservation.RunInvariant`: that a call logs at most MAXOPBLOCKS different blocks is a hypothesis on the callers of begin_op.
- `Log.Log.LogWrite`: blocks of the log area itself are not logged, which is a precondition. It tests and enters in one step; `Reservation` interleaves the two.
- `Log.Log.RecoverFromLog`: starts from a header that write_head wrote; a damaged header is not modelled.
- `Log.Log.Commit`: runs with no other file-system call, which is what `Reservation.RunInvariant` shows, and with fewer logged blocks than buffers and slots, which `Reservation.CommitGrantedIff` shows to be granted by every run only for larger logs and caches than the kernel's.
- `Links.RunInvariant`: "." entries and the absolute lookup of the root, which somebody always holds, are left out. A number that is freed and used again is what a stray ".." then finds.
- `SysFile.Namespace.Create`: devices made by mknod and the shortage of inodes, at which ialloc panics, are left out; the inode number is a parameter. Paths are resolved before the call, as `Directories.Namex` does.
- `SysFile.Namespace.SysLink`: what a call that hangs or panics leaves behind is not promised.
- `CondVar.RunInvariant`: kill and unrelated processes on the same address are left out; broadcast counting relies on their absence.
- `ProcTree.Ptable.Exit`: init, whose exit panics, is excluded; closing files and releasing the directory happen before the lock is taken and are not modelled.
- `Malloc.Allocator.Malloc`: requests of 2 GB and more, for which sbrk is asked for something else, are a precondition; addresses count in header units.
- `Malloc.Allocator.Morecore`: what sbrk returns is a parameter; it lies above all memory obtained before.
- runcmd and the rest of the shell, grep's line buffering, printf and the other user programs.
- `Console.Keyboard.Intr`: echoing and the process listing of ^P are not modelled.
- Spin locks themselves and the scheduler's choice of process: any order is allowed.
