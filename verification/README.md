# xv6 in Dafny

A model of the parts of xv6-riscv that carry the most state, and proofs about them.  Code that
updates fields and lists in place is a class whose methods are proved against functions of
the old state; code that many processes run at once is a system of atomic steps, and the
results hold in every state of every run.

- **Log** (`LogDisk`, `LogCode`, `LogRun`, `LogSafety`, `LogPanics`): the write-ahead log of
  `log.c`.  `LogDisk` speaks of sequences of disk writes and what recovery makes of any prefix
  of them; `LogCode` is the code, shown to perform those sequences; `LogRun` and `LogSafety`
  let operations and crashes interleave in any way.  `LogPanics` gives the exact configurations
  in which the "too big a transaction" panic can be reached by operations that stay in their
  budget.  The configuration of the sources is one of them: mkfs makes a log area of LOGSIZE
  blocks, header included.
- **Buffer cache** (`BufRing`, `BufCache`, `CacheRun`, `CacheStore`): `bio.c`, its list in order
  of use, and its use by many processes; `CacheStore` shows that this is the store of blocks
  that the log is written over.
- **Disk driver** (`Virtio`, `VirtioRun`): descriptors, rings and interrupts of `virtio_disk.c`
  together with a device that takes and completes requests in any order.
- **Processes** (`Proc`, `ProcSafety`): fork, exit, wait, sleep, wakeup, kill and the scheduler
  of `proc.c` as steps of many threads and schedulers.
- **Address spaces** (`Sv39`, `PageSpace`, `TableTree`, `Vm`, `VmWorld`): three-level page
  tables, `vm.c` and the page-table part of `proc.c`, over one pool of pages.
- **Files** (`FsLayout`, `FsExtend`, `FsBytes`, `FsCode`, `FileWrite`): block allocation, `bmap`,
  `itrunc`, `readi`, `writei` and the chunks of `filewrite`.
- **Directories** (`DirTree`, `DirCode`, `DirRun`): link counts and the shape of the tree under
  `link`, `unlink`, `create` and `iput`, one call at a time and over any sequence of them.
- **Pipes** (`PipeRing`, `Pipe`), **`malloc`** (`Umalloc`), the **shell's parser**
  (`ShellGrammar`, `ShellRoundTrip`, `ShellParser`) and **`grep`** (`Grep`).
- `Modular` and `Options` are shared helpers.

Some properties are false of the code.  For each there is a lemma with a concrete input or run
and one with the exact condition: readers of a pipe can be left asleep by a killed writer
(`Pipe.LostWakeupHappens`, `Pipe.LostOnlyByKill`); a 16-bit link count wraps
(`DirCode.LinkCountWraps`, `DirCode.LinkDone`); in a directory that has been unlinked and is
still open, files and directories can be made and links entered, which leaves wrong counts
(`DirCode.UnlinkedParentBreaks`, `DirCode.BirthDone`, `DirCode.LinkDone`), and `create` of ".."
can panic there (`DirCode.StaleHappens`, `DirCode.Tree.Create`); and `log_write` panics within
the budget (`LogPanics.NewBlockPanics`, `LogPanics.NewBlockSafe`).

`dafny verify dfyconfig.toml` checks the project.

## Model

| member | source | states |
|---|---|---|
| LogDisk.HeadRoundTrip | Xv6/kernel/log.c:86-114 | Reading back a header block that `write_head` wrote gives the same list of block numbers. |
| LogDisk.CommitEndsAsRecovery | Xv6/kernel/log.c:116-123 | Once the header is on disk, the rest of a commit is write for write what recovery would do from there. |
| LogDisk.RecoveryKeepsPromise | Xv6/kernel/log.c:116-123 | A recovery stopped after any number of its writes leaves a disk from which recovery still yields the same home blocks. |
| LogDisk.RecoveryCompletes | Xv6/kernel/log.c:116-123 | A full recovery makes the home blocks what the disk promised and empties the log. |
| LogDisk.CrashesDeliverPromise | Xv6/kernel/log.c:116-123 | The same after any sequence of interrupted recoveries. |
| LogDisk.CommitPromise | Xv6/kernel/log.c:193-203 | After `k` writes of a commit the disk promises the old home blocks while `k` is at most the number of logged blocks, and the new ones from then on. |
| LogDisk.CrashAtomic | Xv6/kernel/log.c:68-123 | A commit cut off after any write, then any interrupted recoveries, then a full one: the home blocks hold all of the transaction if the header was written and none of it if not; the log is empty. |
| LogDisk.CommitCompletes | Xv6/kernel/log.c:193-203 | A commit that is not cut off leaves the transaction installed and the log empty. |
| LogCode.Log.constructor | Xv6/kernel/log.c:54-65 | An empty in-memory header, nobody inside, over a given disk. |
| LogCode.Log.BeginOp | Xv6/kernel/log.c:126-142 | Lets the caller in exactly when no commit runs and the header has room for one more whole operation. |
| LogCode.Log.LogWrite | Xv6/kernel/log.c:214-235 | Panics exactly on a full log or outside a transaction; otherwise the block is in the header once, and pinned if it was new. |
| LogCode.Log.WriteLog | Xv6/kernel/log.c:178-191 | The loop performs the copies of `LogLoop`, each from the cache as it then is. |
| LogCode.Log.WriteHead | Xv6/kernel/log.c:102-114 | The header block on disk holds the count and the block numbers over what was there. |
| LogCode.Log.ReadHeader | Xv6/kernel/log.c:86-97 | The in-memory header becomes the one on disk. |
| LogCode.Log.InstallTrans | Xv6/kernel/log.c:68-83 | The loop installs every logged block and unpins it unless recovering. |
| LogCode.Log.Commit | Xv6/kernel/log.c:193-203 | A non-empty transaction goes through log, header, install, clear in that order; an empty one writes nothing. |
| LogCode.Log.EndOp | Xv6/kernel/log.c:146-175 | The last operation out commits, the others only leave; a commit under way is a panic. |
| LogCode.Log.RecoverFromLog | Xv6/kernel/log.c:116-123 | Reads the header on disk, installs it and clears it. |
| LogCode.CommittedWrites | Xv6/kernel/log.c:193-203 | The disk writes of `commit`, loop by loop through the cache, are exactly the write sequence that the crash theorems of `LogDisk` speak about. |
| LogCode.CommittedUnpins | Xv6/kernel/log.c:68-83 | `commit` unpins and makes clean exactly the blocks of the transaction. |
| LogCode.RebootedWrites | Xv6/kernel/log.c:116-123 | The disk writes of `recover_from_log` are those of `LogDisk`. |
| LogCode.CommitCrashSafe | Xv6/kernel/log.c:193-203 | Crash atomicity stated of the code of `commit`: a crash after any of its disk writes loses the whole transaction or none of it. |
| LogRun.OpsInvStep | Xv6/kernel/log.c:126-175 | Every step of every process keeps `outstanding` equal to the number of operations inside, and zero during a commit. |
| LogRun.CommitExcludesOps | Xv6/kernel/log.c:146-175 | While an operation is inside, no commit is under way. |
| LogRun.ListInvStep | Xv6/kernel/log.c:126-235 | Every step keeps the header free of repetitions and the sum of logged blocks and unused budgets within LOGSIZE. |
| LogRun.HistInvStep | Xv6/kernel/log.c:146-175 | Every step keeps the committed groups consecutive runs of ended operations with all of their effects. |
| LogSafety.PrefixDisk | Xv6/kernel/log.c:178-203 | The disk after `k` interleavable steps of a commit is the disk after `k` writes of the commit. |
| LogSafety.DataInvStep | Xv6/kernel/log.c:126-235 | Every step keeps the cache equal to the committed groups plus what the current group has done so far. |
| LogSafety.InvHolds | Xv6/kernel/log.c:126-235 | All the invariants hold in every state of every run, crashes included. |
| LogSafety.CrashYieldsGroups | Xv6/kernel/log.c:116-123 | From any state that satisfies them, a crash and recovery yields exactly the durable groups. |
| LogSafety.RunCrashSafe | Xv6/kernel/log.c:126-235 | Whatever operations begin, write, log and end in whatever interleaving and with whatever crashes: a crash recovers to the effects of whole groups of whole operations, in order. |
| LogSafety.DurableGrows | Xv6/kernel/log.c:146-203 | What is durable stays durable: later states only add groups at the end. |
| LogPanics.NoOpDuringCommit | Xv6/kernel/log.c:146-175 | In no run does an operation meet a commit, so the panics of `end_op` and "outside of trans" are out of reach. |
| LogPanics.BudgetHolds | Xv6/kernel/log.c:126-142 | In every run the logged blocks and the budgets still unused fit in LOGSIZE together. |
| LogPanics.NewBlockGuard | Xv6/kernel/log.c:215-221 | Within its budget, a `log_write` of a new block panics exactly when the log area is too small for one more. |
| LogPanics.AbsorbedBlockGuard | Xv6/kernel/log.c:214-235 | A `log_write` of a block already logged panics exactly when the header is full, because the guard comes before absorption. |
| LogPanics.WithinLimit | Xv6/kernel/log.c:126-235 | In every run the transaction holds at most `Limit` blocks, fewer while the operation has budget left. |
| LogPanics.NewBlockSafe | Xv6/kernel/log.c:215-221 | With a log area of more than `Limit` blocks no run reaches the panic with a new block within the budget. |
| LogPanics.NewBlockPanics | Xv6/mkfs/mkfs.c:25-27 | With a log area of at most `Limit` blocks, as mkfs makes it, some run does: the two lemmas give the exact condition on the configuration. |
| LogPanics.AbsorbedBlockSafe | Xv6/kernel/log.c:214-235 | If neither header nor log area can get full, no run panics on a block already logged. |
| LogPanics.AbsorbedBlockPanics | Xv6/kernel/log.c:214-235 | If either can, some run does, within its budget and needing no room. |
| BufRing.AloneRing | Xv6/kernel/bio.c:42-44 | A head linked to itself is an empty list. |
| BufRing.PushRing | Xv6/kernel/bio.c:45-52 | Linking in at the head puts the buffer first and keeps the doubly linked list whole. |
| BufRing.UnlinkRing | Xv6/kernel/bio.c:128-129 | Unlinking takes out that buffer only and keeps the list whole. |
| BufCache.OldestAt | Xv6/kernel/bio.c:75-87 | The last unreferenced buffer of a list in order of use is the least recently used one. |
| BufCache.FrontIsRecent | Xv6/kernel/bio.c:130-133 | Putting a buffer at the front keeps the list in order of last use. |
| BufCache.MovedToFront | Xv6/kernel/bio.c:126-134 | The unlink and relink of `brelse` keep all buffers in the list and the list in order. |
| BufCache.Cache.constructor | Xv6/kernel/bio.c:36-53 | All buffers in the list, unused, in order. |
| BufCache.Cache.BGet | Xv6/kernel/bio.c:58-89 | Finds the block if it is cached; otherwise takes the least recently used unreferenced buffer; panics exactly if all are referenced. |
| BufCache.Cache.Lookup | Xv6/kernel/bio.c:65-73 | The forward loop finds the buffer of the block or shows that there is none. |
| BufCache.Cache.Victim | Xv6/kernel/bio.c:75-88 | The backward loop finds the least recently used free buffer or shows that there is none. |
| BufCache.Cache.Fill | Xv6/kernel/bio.c:92-103 | A buffer is read from disk only if it is not valid. |
| BufCache.Cache.Unlock | Xv6/kernel/bio.c:116-122 | Only the holder of the lock may release. |
| BufCache.Cache.Drop | Xv6/kernel/bio.c:123-137 | One reference less; the last one makes the buffer the most recently used, and the list stays in order of use. |
| BufCache.Cache.BPin | Xv6/kernel/bio.c:139-144 | One reference more, nothing else. |
| BufCache.Cache.BUnpin | Xv6/kernel/bio.c:146-151 | One reference less, nothing else. |
| CacheRun.InvStep | Xv6/kernel/bio.c:58-151 | Every step of every process keeps: one buffer per block, reference counts that count holders and pins, dirty buffers locked or pinned. |
| CacheRun.InvHolds | Xv6/kernel/bio.c:58-151 | The same over every run. |
| CacheRun.MemIsLast | Xv6/kernel/bio.c:92-112 | The plain memory that the runs are compared with holds what was last put into each block. |
| CacheRun.ReadsLatest | Xv6/kernel/bio.c:92-103 | In every run, a locked buffer holds what was last put into its block by anybody. |
| CacheRun.OneBufferPerBlock | Xv6/kernel/bio.c:58-89 | In every run, no block has two buffers. |
| CacheRun.RecyclesSafely | Xv6/kernel/bio.c:75-87 | In every run, a recycled buffer is unlocked, unpinned, awaited by nobody, least recently used, and its contents are on the disk. |
| CacheRun.UncachedIsOnDisk | Xv6/kernel/bio.c:58-112 | In every run, a block in no buffer is on the disk in its latest form. |
| CacheStore.RunMirrors | Xv6/kernel/bio.c:58-151 | Every run of the cache, seen from one device, is a run of the store of blocks that `LogCode` is written over: same disk, same reads, same pins. |
| CacheStore.ReadIsBread | Xv6/kernel/bio.c:92-103 | What a process finds in a buffer it has locked is `Store.Bread`. |
| CacheStore.WriteIsBwrite | Xv6/kernel/bio.c:106-112 | Filling a locked buffer and writing it, with any steps of other processes in between, is `Store.Bwrite`. |
| CacheStore.DirtyIsKept | Xv6/kernel/bio.c:139-151 | Where the store differs from the disk a buffer holds the block, locked or pinned. |
| VirtQueue.FirstFree | Xv6/kernel/virtio_disk.c:156-166 | The lowest free descriptor, or none. |
| VirtQueue.TakeNext | Xv6/kernel/virtio_disk.c:201-213 | Taking one descriptor after the other takes the lowest free ones, in order and without repetition. |
| VirtQueue.TookAll | Xv6/kernel/virtio_disk.c:201-213 | Failing to find three means fewer than three were free. |
| VirtioDriver.Driver.AllocDesc | Xv6/kernel/virtio_disk.c:156-166 | Takes the lowest free descriptor. |
| VirtioDriver.Driver.FreeDesc | Xv6/kernel/virtio_disk.c:169-182 | Panics exactly on an index out of range or a descriptor already free; otherwise zeroes and frees it. |
| VirtioDriver.Driver.FreeChain | Xv6/kernel/virtio_disk.c:185-197 | Following the next links frees exactly the three descriptors of the chain. |
| VirtioDriver.Driver.Alloc3Desc | Xv6/kernel/virtio_disk.c:201-213 | The three lowest free descriptors, or, with fewer than three free, nothing changed. |
| VirtioDriver.Driver.GiveBack | Xv6/kernel/virtio_disk.c:204-211 | Freeing what was taken restores the table. |
| VirtioDriver.Driver.Submit | Xv6/kernel/virtio_disk.c:215-277 | Chain, ring entry and index of a request are set up on fresh descriptors, or nothing changes when there are fewer than three. |
| VirtioDriver.Driver.Finish | Xv6/kernel/virtio_disk.c:288-291 | Takes the request off its info slot and frees its chain; cannot panic on a linked chain. |
| VirtioDriver.Driver.Intr | Xv6/kernel/virtio_disk.c:294-327 | The loop handles exactly the new used entries, across wrap-around of the 16-bit index. |
| VirtioDriver.IntrSeen | Xv6/kernel/virtio_disk.c:309-323 | Handling changes nothing of the disk structure but the index, by the number of entries modulo 2^16. |
| VirtioDriver.IntrDone | Xv6/kernel/virtio_disk.c:309-323 | The loop stops at the device index and not before. |
| VirtioRun.ServesRequest | Xv6/kernel/virtio_disk.c:215-272 | A device that follows the descriptors does the transfer that the request asked for, on the right buffer and block, and reports it. |
| VirtioRun.InterruptSafe | Xv6/kernel/virtio_disk.c:294-327 | The next used entry belongs to a request that is done, and handling it clears that request's buffer. |
| VirtioRun.InvStep | Xv6/kernel/virtio_disk.c:156-327 | Every step of processes, device and interrupts keeps the invariants of table and rings. |
| VirtioRun.InvHolds | Xv6/kernel/virtio_disk.c:156-327 | The same over every run. |
| VirtioRun.TablePartitioned | Xv6/kernel/virtio_disk.c:156-213 | In every run, each descriptor is free or belongs to exactly one request. |
| VirtioRun.NeverPanics | Xv6/kernel/virtio_disk.c:156-327 | In every run, the device can always serve, the interrupt handler never panics, and a woken process can always free its chain. |
| VirtioRun.RingsLoseNothing | Xv6/kernel/virtio_disk.c:294-327 | In every run, requests are taken in the order of submission and completions are seen in the order of completion, none lost or repeated. |
| VirtioRun.ClearedByOwnCompletion | Xv6/kernel/virtio_disk.c:283-286 | A sleeping process is released only by the completion of its own request, with status 0. |
| Proc.LocalStep | Xv6/kernel/proc.c:109-604 | Every step keeps the state, lock, kernel stack and program counter of each slot consistent. |
| Proc.WaitLockStep | Xv6/kernel/proc.c:279-435 | Every step keeps `wait_lock` with the thread whose code holds it. |
| Proc.WaitLockScan | Xv6/kernel/proc.c:390-435 | So does each turn of the scan in `wait`. |
| Proc.LockStep | Xv6/kernel/proc.c:109-580 | Every step keeps each `p->lock` with the thread or scheduler whose code holds it. |
| ProcSafety.InitialInv | Xv6/kernel/proc.c:232-255 | The state after `userinit` satisfies the invariants. |
| ProcSafety.InvStep | Xv6/kernel/proc.c:109-604 | Every step of threads, schedulers and interrupts keeps all the invariants. |
| ProcSafety.InvHolds | Xv6/kernel/proc.c:109-604 | The same over every run. |
| ProcSafety.NoLostExit | Xv6/kernel/proc.c:390-435 | In every run, a parent asleep in `wait` with `wait_lock` free has no zombie child. |
| ProcSafety.ParentsAlive | Xv6/kernel/proc.c:330-386 | In every run, every process but init has a living parent, and init lives. |
| ProcSafety.FreedOnceOffStack | Xv6/kernel/proc.c:402-420 | A process is reaped once, after it exited, when nothing runs on its stack and nobody holds its lock. |
| ProcSafety.ExitsAccounted | Xv6/kernel/proc.c:346-435 | In every run, each exit is either still a zombie or was reaped, never both and never twice. |
| ProcSafety.ZombieStays | Xv6/kernel/proc.c:390-435 | A zombie stays one until its own parent reaps it. |
| ProcSafety.SchedSafe | Xv6/kernel/proc.c:481-499 | In every run, a thread that switches out holds exactly its own lock, not `wait_lock`, and is not RUNNING. |
| ProcSafety.HolderProgress | Xv6/kernel/proc.c:330-435 | The holder of `wait_lock` can move, or whoever has the lock it needs can. |
| ProcSafety.NoDeadlock | Xv6/kernel/proc.c:330-435 | In every run, `wait_lock` held means some such step is possible. |
| Sv39.PteRoundTrip | Xv6/kernel/riscv.h:335-350 | Packing a frame and its flags into a 64-bit entry and unpacking gives them back, every flag bit included. |
| Sv39.AddressDigits | Xv6/kernel/riscv.h:351-357 | The three 9-bit indices and the offset are the digits of the address. |
| PageSpace.RepElsewhere | Xv6/kernel/vm.c:85-103 | Changing other pages of memory does not change a page table. |
| PageSpace.WalkReads | Xv6/kernel/vm.c:85-103 | An inner entry leads to the next table of the path, or there is none. |
| PageSpace.WalkGrows | Xv6/kernel/vm.c:92-99 | A new zeroed table keeps every mapping. |
| PageSpace.SetLeaf | Xv6/kernel/vm.c:155-160 | Writing one last-level entry changes the mapping of that page only. |
| PageSpace.LeafReads | Xv6/kernel/vm.c:85-103 | A last-level entry is valid exactly when its page is mapped. |
| PageSpace.TranslateIsFlat | Xv6/kernel/vm.c:72-103 | Translation as the hardware does it, on the 64-bit words in memory, finds for every address the flat mapping that the model speaks about. |
| TableTree.EntryMeans | Xv6/kernel/vm.c:271-287 | An entry with no R, W or X bit is an inner table, one with them a leaf, at every level. |
| TableTree.WalkChild | Xv6/kernel/vm.c:276-281 | Freeing a child and clearing its entry takes the walk one entry further. |
| Vm.Machine.constructor | Xv6/kernel/kalloc.c:26-40 | `kinit` and `freerange`: exactly the pages from the end of the kernel to PHYSTOP are free, fewer than would reach the trapframe. |
| Vm.Machine.KAlloc | Xv6/kernel/kalloc.c:68-82 | Takes the first free page, or says that there is none. |
| Vm.Machine.KFree | Xv6/kernel/kalloc.c:46-63 | The page is free again. |
| Vm.Machine.Walk | Xv6/kernel/vm.c:85-103 | Finds the last-level table of the address; with `alloc` fails only when memory is gone and keeps every mapping. |
| Vm.Machine.MapOne | Xv6/kernel/vm.c:152-160 | One page mapped, or a remap panic, or no memory. |
| Vm.Machine.MapPages | Xv6/kernel/vm.c:142-165 | Maps the pages that the range touches, one after the other; stops only at a mapped page or without memory, with the earlier ones mapped. |
| Vm.MapRangeIs | Xv6/kernel/vm.c:142-165 | What such a range of mappings says of each page. |
| Vm.Machine.UnmapOne | Xv6/kernel/vm.c:178-191 | Unmaps a page, freeing it if asked; panics exactly if it is not mapped. |
| Vm.Machine.UvmUnmap | Xv6/kernel/vm.c:170-192 | Succeeds exactly on an aligned range that is mapped throughout, and then unmaps it and frees its pages if asked. |
| Vm.Machine.AddPage | Xv6/kernel/vm.c:232-247 | A new page with the wanted contents is mapped, or nothing but page-table pages changed. |
| Vm.Machine.UvmAlloc | Xv6/kernel/vm.c:225-249 | Grows by zeroed pages with the given permissions, or undoes all of it, and then memory had no more pages than were asked for. |
| Vm.Machine.UvmDealloc | Xv6/kernel/vm.c:255-267 | Unmaps and frees exactly the pages above the new size. |
| Vm.UndoBuilt | Xv6/kernel/vm.c:225-249 | Unmapping what was added puts everything back but page-table pages. |
| Vm.Machine.FreeWalk | Xv6/kernel/vm.c:271-287 | Frees every table of the tree, and cannot panic when no leaf is left. |
| Vm.Machine.UvmFree | Xv6/kernel/vm.c:291-297 | Frees all user pages and all tables. |
| Vm.Machine.UvmCopy | Xv6/kernel/vm.c:305-333 | Copies every page to fresh memory with the same permissions, or undoes all of it; panics only on a hole in the parent. |
| Vm.CopyIsFaithful | Xv6/kernel/vm.c:305-333 | Each page of the copy has the same contents and permissions on a frame of its own, and the parent is as before. |
| Vm.OtherSpaceKept | Xv6/kernel/vm.c:305-333 | Building one address space leaves the tables of every other one alone. |
| Vm.Machine.ProcPagetable | Xv6/kernel/proc.c:176-206 | A space with trampoline and trapframe only, on the frames given, or memory as before. |
| Vm.Machine.ProcFreePagetable | Xv6/kernel/proc.c:210-216 | All the pages and tables of the space are free again; the trampoline and trapframe frames are not freed. |
| Vm.Machine.GrowProc | Xv6/kernel/proc.c:259-275 | For every 32-bit amount: the size changes as asked or not at all; pages below both sizes keep frame, permissions and bytes, new ones are zero; growing fails only for lack of memory. |
| Vm.LifeEnds | Xv6/kernel/proc.c:176-216 | Created, grown and shrunk, and freed, a space gives back exactly what it took. |
| Vm.Machine.Lifetime | Xv6/kernel/proc.c:176-275 | So it is for every sequence of requests to grow and shrink. |
| Vm.ProcIsUser | Xv6/kernel/vm.c:108-126 | A process space satisfies what the copy functions need: its user pages are private, its trampoline and trapframe out of user reach. |
| Vm.Machine.WalkAddr | Xv6/kernel/vm.c:108-126 | The frame of a valid user page, for every address, and nothing otherwise. |
| Vm.Machine.CopyIn | Xv6/kernel/vm.c:376-396 | The bytes at the user address, page by page; stops exactly at the first byte that is out of reach. |
| Vm.Machine.CopyOut | Xv6/kernel/vm.c:351-371 | The bytes are at the user address afterwards and all else is as before; stops exactly at the first byte out of reach. |
| Vm.StoredIsHeld | Xv6/kernel/vm.c:351-396 | What was copied out is what copying in will find. |
| Vm.Machine.CopyInStr | Xv6/kernel/vm.c:402-439 | The string up to and with its first NUL; fails exactly when there is none within reach and within the bound. |
| VmWorld.AllocProc | Xv6/kernel/proc.c:127-141 | Takes a page for the trapframe and an empty page table, or gives back what it took. |
| VmWorld.FreeProc | Xv6/kernel/proc.c:155-172 | Gives back the trapframe page, the user pages and the tables; cannot panic. |
| VmWorld.ForkSpace | Xv6/kernel/proc.c:279-307 | A child with a trapframe of its own and a faithful copy of the parent's pages, or memory as before. |
| VmWorld.OtherOwned | Xv6/kernel/proc.c:109-326 | Whatever one process trades with the free list, the pages and tables of another are untouched. |
| VmWorld.WorldStep | Xv6/kernel/proc.c:109-326 | So every page stays free or with exactly one owner. |
| VmWorld.Kernel.constructor | Xv6/kernel/kalloc.c:26-40 | After `kinit`, no process. |
| VmWorld.Kernel.Create | Xv6/kernel/proc.c:109-150 | A new process owns what it took; every other one has what it had, contents included. |
| VmWorld.Kernel.Fork | Xv6/kernel/proc.c:279-307 | The child holds what the parent holds; the parent and every other process have what they had, contents included. |
| VmWorld.Kernel.Grow | Xv6/kernel/proc.c:259-275 | The process keeps the pages below both sizes and gets zeroed ones; every other one has what it had. |
| VmWorld.Kernel.Exit | Xv6/kernel/proc.c:155-172 | What the process had is free; every other one has what it had. |
| VmWorld.Kernel.Run | Xv6/kernel/proc.c:109-326 | Any sequence of create, fork, grow, shrink and exit over many processes, then exit for all: every page, trapframes included, is free again, no panic on the way. |
| FsLayout.EntryRoundTrip | Xv6/kernel/fs.c:397-416 | Writing one word of an indirect block changes that entry only. |
| FsLayout.FilledOwn | Xv6/kernel/fs.c:382-421 | Putting a fresh block into an empty place keeps every block owned at most once and marked as used. |
| FsLayout.EmptiedOwn | Xv6/kernel/fs.c:425-453 | Emptying a file keeps that too. |
| FsExtend.FillExtends | Xv6/kernel/fs.c:382-421 | One new block adds to its file only and logs only its own metadata. |
| FsExtend.IndirectMapped | Xv6/kernel/fs.c:394-416 | A new indirect block and what is mapped through it are one extension of the file. |
| FsExtend.FreeNext | Xv6/kernel/fs.c:430-447 | Each block that `itrunc` frees was used and belonged to the file. |
| FsBytes.ExtendKeepsByte | Xv6/kernel/fs.c:382-421 | Mapping a block changes no byte of any file. |
| FsBytes.PutByte | Xv6/kernel/fs.c:521-525 | Storing into a mapped block changes those bytes of that file and none of any other. |
| FsBytes.ClosedContents | Xv6/kernel/fs.c:526-537 | Setting the size gives the file with the data spliced in, and every other file as before. |
| FsBytes.EmptiedFiles | Xv6/kernel/fs.c:425-453 | Emptying leaves an empty file and the others as before. |
| FsCode.FileSystem.BAlloc | Xv6/kernel/fs.c:65-88 | The lowest free block, zeroed and marked; 0 exactly when the disk is full. |
| FsCode.FileSystem.BFree | Xv6/kernel/fs.c:91-105 | The block is free; panics exactly if it was free already. |
| FsCode.FileSystem.BMap | Xv6/kernel/fs.c:382-421 | The block of the file, allocated if there was none, or 0 on a full disk; no file changes, and only the blocks listed are allocated. |
| FsCode.FileSystem.ITrunc | Xv6/kernel/fs.c:425-453 | Cannot panic; the file is empty, exactly its blocks are free again, every other file is as before. |
| FsCode.FileSystem.ReadI | Xv6/kernel/fs.c:471-496 | Returns exactly the bytes of the file at the offset; past the end or on 32-bit overflow nothing; -1 exactly if a copy fails. |
| FsCode.FileSystem.WriteI | Xv6/kernel/fs.c:505-539 | Refuses exactly past the end or past the largest file; otherwise the file is its old contents with the written part spliced in, others as before; short only if a copy failed or the disk is full. |
| FsCode.FileSystem.WriteThenRead | Xv6/kernel/fs.c:471-539 | Reading what was just written gives it back. |
| FileWrite.ChunkBudget | Xv6/kernel/file.c:151-174 | One chunk logs at most MAXOPBLOCKS distinct blocks, whatever it has to allocate. |
| FileWrite.WriteChunk | Xv6/kernel/file.c:155-174 | One transaction: within the budget, and the file as `writei` says. |
| FileWrite.WriteFile | Xv6/kernel/file.c:134-181 | All chunks together write the whole buffer or stop for a stated reason; the file and the offset say how far it came. |
| DirTree.NoStale | Xv6/kernel/fs.c:336-362 | No entry names an inode that is not there. |
| DirTree.NoCycle | Xv6/kernel/fs.c:551-606 | No linked directory but the root is above itself: their parents all lead to the root. |
| DirTree.FewLinks | Xv6/kernel/fs.c:511-514 | A directory has fewer links than entries, and so, by the size of the largest file, far fewer than a short can count. |
| DirTree.NamesUnique | Xv6/kernel/fs.c:551-606 | Names compared as `namecmp` does, up to DIRSIZ bytes, are unique in each directory. |
| DirTree.EnteredOk | Xv6/kernel/sysfile.c:123-170 | One more entry and one more link keep every link count equal to the entries. |
| DirTree.MadeOk | Xv6/kernel/sysfile.c:281-292 | So does a new directory with its dots and its parent's link. |
| DirTree.OnlyEntry | Xv6/kernel/sysfile.c:188-243 | An empty directory has one name, link count 1, and is not the root. |
| DirTree.RemovedFileOk | Xv6/kernel/sysfile.c:188-243 | Unlinking a file keeps the tree in order. |
| DirTree.RemovedDirOk | Xv6/kernel/sysfile.c:222-236 | So does unlinking an empty directory. |
| DirTree.ReclaimedOk | Xv6/kernel/fs.c:336-362 | So does freeing an inode with no links. |
| DirCode.Tree.DirLookup | Xv6/kernel/fs.c:551-575 | Finds the entry with the name, or there is none. |
| DirCode.Tree.constructor | Xv6/mkfs/mkfs.c:117-128 | The tree that mkfs makes. |
| DirCode.Tree.DirLink | Xv6/kernel/fs.c:579-606 | Enters at the first unused place; fails exactly on a name that is there, a directory of the largest size, or a failed write. |
| DirCode.Tree.IsDirEmpty | Xv6/kernel/sysfile.c:173-186 | True exactly if nothing follows the dots. |
| DirCode.Tree.IPut | Xv6/kernel/fs.c:336-362 | The inode goes exactly when it has no links and nobody has it open. |
| DirCode.Tree.SysLink | Xv6/kernel/sysfile.c:123-170 | Succeeds exactly for a non-directory and a fresh name that fits, in a directory linked or not; a failure changes nothing; the tree stays in order unless the directory is not linked or the 16-bit link count wraps. |
| DirCode.LinkDone | Xv6/kernel/sysfile.c:149-155 | A link keeps the tree in order if and only if its directory is linked and the count was below the largest short. |
| DirCode.LinkCountWraps | Xv6/kernel/sysfile.c:123-170 | A tree in order with 32767 links where one more `link` makes the count negative. |
| DirCode.Tree.SysUnlink | Xv6/kernel/sysfile.c:188-243 | Succeeds exactly for an existing name that is no dot and no directory in use; a failure changes nothing; the tree stays in order. |
| DirCode.UnlinkUndoesLink | Xv6/kernel/sysfile.c:123-243 | Unlinking what was linked gives the tree back, but for an unused slot. |
| DirCode.Tree.Create | Xv6/kernel/sysfile.c:245-302 | Exactly when it succeeds and what it makes, in a directory linked or not; nothing on failure; panics exactly on a name whose inode has been freed; the tree stays in order unless it made something in a directory that is not linked. |
| DirCode.BirthDone | Xv6/kernel/sysfile.c:269-292 | A new inode of any kind keeps the tree in order if and only if its directory is linked. |
| DirCode.UnlinkedParentBreaks | Xv6/kernel/sysfile.c:245-302 | A tree in order with an open directory that has been unlinked, where a new file, a new directory and a new link each leave a wrong count. |
| DirCode.StaleHappens | Xv6/kernel/sysfile.c:255-262 | A tree in order with an unlinked directory whose parent has been freed, where `create` of ".." panics. |
| DirCode.FreshTree | Xv6/mkfs/mkfs.c:117-128 | The root directory that mkfs makes is a tree in order. |
| DirRun.Session.constructor | Xv6/mkfs/mkfs.c:117-128 | A session on that tree, with nothing open. |
| DirRun.Session.Do | Xv6/kernel/sysfile.c:123-302 | Any one call panics or leaves a tree out of order if and only if it is harmful: a new name in an unlinked directory, a count that wraps, a stale "..". |
| DirRun.Session.Unlink | Xv6/kernel/sysfile.c:188-243 | An inode that is held stays when its last name goes; the tree stays in order and nothing is leaked. |
| DirRun.Session.Close | Xv6/kernel/fs.c:336-362 | The last reference to an inode without links frees it. |
| DirRun.Session.Run | Xv6/kernel/sysfile.c:123-302 | Any sequence of create, link, unlink, open and close from the tree of mkfs: in order and without leaks up to the first harmful call. |
| DirRun.Session.CloseAll | Xv6/kernel/fs.c:336-362 | When every reference has been dropped, every inode has a name. |
| PipeRing.TestsMean | Xv6/kernel/pipe.c:84-121 | The full and empty conditions on the 32-bit counters mean full and empty, across wrap-around. |
| PipeRing.PutKeeps | Xv6/kernel/pipe.c:93-95 | Storing a byte appends it to the queue. |
| PipeRing.GetTakesNext | Xv6/kernel/pipe.c:119-124 | Taking a byte takes the oldest one. |
| Pipe.InvStep | Xv6/kernel/pipe.c:58-130 | Every step of readers, writers and closers keeps the invariants. |
| Pipe.InvHolds | Xv6/kernel/pipe.c:58-130 | The same over every run. |
| Pipe.PipeIsQueue | Xv6/kernel/pipe.c:76-130 | In every run the bytes read are a prefix of the bytes written, in order, and the ring holds the rest. |
| Pipe.ReadIsContiguous | Xv6/kernel/pipe.c:105-130 | What one `piperead` returns is one contiguous part of the stream. |
| Pipe.NoLostWakeup | Xv6/kernel/pipe.c:76-130 | Unless a killed writer has left in the middle and no wakeup of readers has completed since, a sleeper has a reason: a reader an empty pipe with writers, a writer a full one with readers. |
| Pipe.WakeupMakesGood | Xv6/kernel/pipe.c:58-103 | Every completed wakeup of readers leaves no sleeper without a reason, whatever was lost before. |
| Pipe.WritersNeverLost | Xv6/kernel/pipe.c:76-103 | A sleeping writer always has a reason, kills or not. |
| Pipe.NeverBothAsleep | Xv6/kernel/pipe.c:76-130 | Reader and writer never sleep at once, under the same proviso. |
| Pipe.LostOnlyByKill | Xv6/kernel/pipe.c:83-87 | The wakeup of readers is lost exactly when a killed writer returns with bytes stored and not announced. |
| Pipe.KilledWriterStrandsReaders | Xv6/kernel/pipe.c:83-87 | Whenever that happens with a reader asleep, the reader sleeps on a pipe that has bytes. |
| Pipe.LostWakeupHappens | Xv6/kernel/pipe.c:83-87 | A concrete run from the initial state that ends so. |
| Pipe.RefInvHolds | Xv6/kernel/pipe.c:58-74 | In every run the pipe is freed only with both ends closed and nobody inside. |
| Pipe.NoUseAfterFree | Xv6/kernel/pipe.c:58-74 | After it is freed no process is inside or can enter. |
| FreeList.InsertGapped | Xv6/user/umalloc.c:24-44 | Inserting with coalescing leaves no two adjacent free blocks. |
| FreeList.InsertCovers | Xv6/user/umalloc.c:24-44 | It adds exactly the units of the block. |
| FreeList.TakeKeeps | Xv6/user/umalloc.c:73-84 | Carving from the tail of a block, or taking a whole one, keeps the list in order. |
| FreeList.TakeCovers | Xv6/user/umalloc.c:73-84 | It removes exactly the units given out. |
| FreeList.TakeThenInsert | Xv6/user/umalloc.c:24-84 | Freeing what was just taken gives the list back. |
| Umalloc.UnitsFor | Xv6/user/umalloc.c:68-69 | The least number of units that holds the bytes and a header. |
| Umalloc.Allocator.constructor | Xv6/user/umalloc.c:21-22 | No free list yet, nothing handed out. |
| Umalloc.Allocator.FindSlot | Xv6/user/umalloc.c:30-32 | The loop round the circular list finds the place in address order, from whatever node it starts at. |
| Umalloc.Allocator.Free | Xv6/user/umalloc.c:24-44 | On the pointers and size fields: the list becomes the coalesced insertion, the block is no longer live. |
| Umalloc.Allocator.Morecore | Xv6/user/umalloc.c:46-61 | The grant joins the free list where the search goes on; a refusal changes nothing. |
| Umalloc.Allocator.Search | Xv6/user/umalloc.c:72-88 | The walk finds the first block from `freep` on that is large enough, or comes round and there is none. |
| Umalloc.Allocator.Malloc | Xv6/user/umalloc.c:63-90 | A fresh block of the units asked for, disjoint from all live ones; asks the system exactly when nothing fits, at most once, and fails only if that is refused. |
| Umalloc.Allocator.Carve | Xv6/user/umalloc.c:73-84 | On the fields: splitting or unlinking as `Take` says. |
| Umalloc.FreeOk | Xv6/user/umalloc.c:24-44 | `free` keeps the heap invariant. |
| Umalloc.GrantOk | Xv6/user/umalloc.c:46-61 | So does memory from the system. |
| Umalloc.CarveOk | Xv6/user/umalloc.c:73-84 | So does handing out a block. |
| Umalloc.Conservation | Xv6/user/umalloc.c:24-90 | Free and live units are disjoint and together all that was ever obtained. |
| Umalloc.LiveBlocksApart | Xv6/user/umalloc.c:63-90 | Live blocks do not overlap. |
| ShellRoundTrip.PrintedBack | Xv6/user/sh.c:345-447 | A printed command followed by anything that ends a line parses to itself, at every nesting. |
| ShellRoundTrip.RoundTrip | Xv6/user/sh.c:328-447 | Parsing a printed command tree gives the tree: every tree of words, redirections, pipes, lists and background is read as written. |
| ShellParser.Parser.GetToken | Xv6/user/sh.c:266-309 | The pointer code yields the token of the grammar and the span of a word. |
| ShellParser.Parser.Peek | Xv6/user/sh.c:311-321 | Skips spaces and says whether one of the characters is next. |
| ShellParser.Parser.ParseRedirs | Xv6/user/sh.c:375-398 | The loop parses what the grammar says, and its words are apart. |
| ShellParser.Parser.ParseArgs | Xv6/user/sh.c:431-443 | The same for the argument loop, with its panic at MAXARGS. |
| ShellParser.Parser.ParseExec | Xv6/user/sh.c:416-447 | The same for a simple command, or a block. |
| ShellParser.Parser.ParseBlock | Xv6/user/sh.c:400-414 | The same for parentheses and what follows them. |
| ShellParser.Parser.ParsePipe | Xv6/user/sh.c:362-373 | The same for pipelines. |
| ShellParser.Parser.ParseLine | Xv6/user/sh.c:345-360 | The same for lists and background commands. |
| ShellParser.Parser.ParseCmd | Xv6/user/sh.c:328-343 | The whole line parses exactly if the grammar accepts it, to the same tree, with words that do not touch. |
| ShellParser.NulTerminate | Xv6/user/sh.c:450-494 | Writes a NUL at the end of every word of the tree and nowhere else. |
| ShellParser.WordsTerminated | Xv6/user/sh.c:450-494 | After that each word, read as a C string, is the text that was parsed: no NUL lands in another word. |
| ShellParser.ReadCommand | Xv6/user/sh.c:328-494 | Parse and terminate together: the strings in the buffer make the tree that the grammar gives the line; a bad line leaves the buffer as it was. |
| Grep.MatchesUnfold | Xv6/user/grep.c:84-105 | The meaning of a pattern, as pieces of text, taken one item at a time. |
| Grep.MatchHere | Xv6/user/grep.c:84-95 | True exactly if some prefix of the text can be cut into pieces that fit the items. |
| Grep.MatchStar | Xv6/user/grep.c:98-105 | The same with a starred character first. |
| Grep.Match | Xv6/user/grep.c:71-81 | True exactly if the pattern occurs, at the start if it begins with a caret. |
| Grep.LiteralMatchesOnlyItself | Xv6/user/grep.c:84-95 | A plain word followed by a dollar matches that word only. |

## Left out

- Boot, traps, system call dispatch and argument fetching, `exec`, the console, `printf`, the UART and the PLIC: little state of their own, or assembly.
- Path resolution (`namex`) and name operations of several processes at once: each directory operation is one atomic step on the tree, its directory already found.
- The inode table (`iget`, `ilock`, `iupdate`) and `ialloc`: inode numbers and the result of `ialloc` are parameters, and references are a bag of numbers.
- Inodes that are unlinked and still open at a crash: the code leaks them, and the model of a crash ends at the log.
- Spinlocks and sleep locks: a lock is atomic ownership, and a critical section is one step.
- Memory ordering: all steps are sequentially consistent, so the barriers of `virtio_disk.c` have no counterpart; neither does the device set-up in `virtio_disk_init`.
- `proc.c`, `pipe.c` and the multi-process parts of `log.c` and `bio.c` are step systems on values, so aliasing within one critical section is not modelled there.
- The order in which `allocproc` and the scheduler scan the table, and a pid counter that overflows: any free slot and any runnable process may be chosen, and pids are unbounded.
- Disk transfers of the buffer cache are atomic; a client gives up the lock of a buffer that differs from the disk only when it is pinned, which `log_write` sees to.
- A partial copy: the copies inside `readi` and `writei` succeed or fail as a whole, and a parameter says which one fails.
- Bytes of a block as numbers: contents are sequences of integers, and only the words of indirect blocks are encoded.
- `kvmmake`, `uvmfirst` and `uvmclear`: each is one use of `mappages` or `walk`, on the kernel's own table or at boot.
- The saved registers: the contents of a trapframe page are not modelled, only who owns the page.
- Vm.Machine.KFree: no panic on an address outside memory or off a page boundary, because frames are numbers of pages that were allocated, and no junk fill, because the contents of free pages are not modelled.
- Vm.Machine.CopyOut: does not ask for PTE_W, because the code does not either.
- Vm.Machine.GrowProc: asks for fewer pages in all than would reach the trapframe, because `growproc` itself has no such limit; `Vm.Machine.constructor` shows it of the machine.
- Vm.Machine.Lifetime: asks for the same.
- Umalloc.Allocator.Morecore: the answer of `sbrk` is a parameter, addresses are in units of a header, and the request fits in 32 bits, because `sbrk` takes an `int`.
- Umalloc.Allocator.Malloc: the same.
- ShellParser.Parser.ParseExec: keeps arguments and redirections apart until the end, because the code fills in the argument node that the redirections already point to.
- `runcmd` and the other user programs; `mkfs` but for its constants and root directory.
