# Verified models of the xv6 kernel

A Dafny 4.11 model of the parts of xv6 whose correctness spans several functions, with proofs
of what those parts are for. `dafny verify dfyconfig.toml` checks everything.

What is proved, module by module:

- **LogDisk, Log, GroupCommit, LogSafety, LogSpace, LogReservation, LogOverrun** (kernel/log.c,
  kernel/bio.c). The write-ahead log. A crash after any single sector write of a commit, followed by
  any number of recoveries that themselves crash, leaves every home block wholly before or wholly
  after the transaction. In every interleaving of operations that log fewer than MAXOPBLOCKS blocks
  each, or at most MAXOPBLOCKS on a log of more than LOGSIZE sectors, what is recovered is the effect
  of whole operations only, reads see what was logged last, and no home block is written early. The
  bound is exact: log_write makes its test for room without the lock, and with operations of
  MAXOPBLOCKS blocks on the log of mkfs there is a run in which write_log overwrites the block behind
  the log before anything is committed.
- **BufferCache, IdeQueue, IdeCalls** (kernel/bio.c, kernel/ide.c, kernel/memide.c). The LRU list
  stays a cycle through all buffers, a block has at most one buffer, and a commit finds buffers as
  long as the blocks logged and the buffers that others reference are together fewer than all. The
  interrupt-driven disk refines the memory disk, in the order of the calls, and every call of iderw
  amounts to one access of the memory disk at one moment inside the call.
- **BlockBits, FileBlocks, FileOps, FileWrites, FileTxns, FileSpread, Mkfs** (kernel/fs.c,
  kernel/file.c, kernel/sysfile.c, fs/mkfs.c). A bit of the bitmap is set exactly when the block is
  metadata or in exactly one slot of one inode. writei splices bytes into the contents and readi
  slices them, other files do not change, and every transaction of filewrite stays within MAXOPBLOCKS
  blocks, whatever other writers do between them. create, link and unlink stay below that; the
  freeing of an inode does exactly when at most eight bitmap blocks cover the data blocks. mkfs builds
  a sound image, except for a root directory that ends at the end of a block.
- **Directories, UnlinkWindow** (kernel/fs.c, kernel/sysfile.c). In every run of create, link, unlink
  and reclaim from an image of mkfs that adds nothing to a directory already unlinked, link counts are
  the number of names, also while any number of unlinks have cleared their entry and not yet lowered
  the count. Adding to an unlinked directory always breaks them, and two runs show how.
- **Paging, PagingOps** (kernel/vm.c, kernel/kalloc.c, kernel/proc.c). Every page is free or has
  exactly one holder. A failed setupkvm or copyuvm changes nothing, a failed allocuvm leaves only
  tables, freevm frees every page once, and a copied address space shows what the original shows.
- **SleepLock, Processes, ProcessSteps, ProcessRuns, ProcessTable** (kernel/sleeplock.c,
  kernel/proc.c). Sleep-locks exclude and lose no wakeup, which rests on the order of two locks in
  sleep. The process tree reaches init, wait returns every pid at most once and never frees a stack in use.
- **Pipe** (kernel/pipe.c). Bytes arrive in order and without loss across counter wraparound; the
  one step that can strand a sleeping reader is named exactly.
- **Umalloc, Regexp** (user/umalloc.c, user/grep.c). The allocator keeps its free list coalesced,
  its blocks disjoint and its units conserved, as long as sbrk gives what it is asked for; the
  sizes for which sbrk is asked for too little, and those for which the process loses its memory, are
  named exactly. match decides the language of its pattern.

**Basics**, **Options** and **Sets** hold what several of these share.

How the model is laid out. Code that updates memory is a class whose methods have the loops of the
source. Concurrent code is a state machine over the steps between two points at which other
processors can run, and a property of it holds in every state of every run. A panic is a result
value where a caller could meet it, and a precondition where the proof is that nobody does. Disk
blocks, page frames and buffers are sequences; 32-bit wrap-around is written out wherever the
source depends on it (pipe counters, `off + n < off`, PGROUNDUP, the jump in deallocuvm, kmap
sizes, malloc sizes).

Some properties turn out false as one might first state them. Each has a concrete input that shows
it, and the exact condition under which it holds:

- that the test in log_write keeps the header within the log: `LogOverrun.TestDoesNotBound` and
  `LogOverrun.OverwritesNeighbour`; `LogOverrun.SafeExactly`, and `LogSpace.PanicExactly` for the
  panic;
- that freeing an inode keeps within the reservation of one operation: `FileSpread.NineParts`;
  `FileSpread.FreeExactly`;
- that create and link keep link counts right: `Directories.CreateBreaksCounts` and
  `Directories.LinkBreaksCounts`; `Directories.CreateExactly` and `Directories.LinkExactly`;
- that mkfs leaves no hole in the root directory: `Mkfs.FullRoot`; `Mkfs.RootExactly`;
- that a sleeping reader means an empty pipe: `Pipe.KilledWriterStrandsReader`; `Pipe.RestedExactly`;
- that malloc gets the memory it hands out: `Umalloc.HugeRequests`; `Umalloc.RoomExactly`,
  `Umalloc.AskedExactly` and `Umalloc.ServedExactly`;
- that malloc leaves the heap as it was when it returns 0: `Umalloc.LostRequest`; `Umalloc.LostExactly`;
- that the size of a process describes its memory: `PagingOps.ShrinkToNothing`; the last clause of
  `PagingOps.Vm.Growproc`.

The comment at kernel/vm.c:318-319 says that deallocuvm does nothing if newsz is less than oldsz; the
code does nothing if newsz is not less than oldsz, and the model follows the code.

## Model

| member | source | states |
|---|---|---|
| LogDisk.InstalledContents | kernel/log.c:68-82 | after any number of the copies of install_trans, exactly the home blocks copied so far hold their log sectors and every other sector is unchanged |
| LogDisk.AppendedContents | kernel/log.c:176-190 | after any number of the copies of write_log, exactly that many log sectors hold the cached blocks and every other sector is unchanged |
| LogDisk.CommitTraceAt | kernel/log.c:192-202 | the images a commit leaves on disk, write by write, are exactly the points at which it can be stopped |
| LogDisk.RecoveryTraceAt | kernel/log.c:115-122 | the same for a recovery |
| LogDisk.RecoveryKeepsWorth | kernel/log.c:115-122 | a recovery stopped after any of its writes leaves a disk that recovers to the same home blocks, and a completed one has put them in place |
| LogDisk.CrashesKeepWorth | kernel/log.c:115-122 | any number of recoveries that crash anywhere, followed by one that completes, restore the home blocks the disk was worth before |
| LogDisk.HeaderWriteCommits | kernel/log.c:101-113 | the single write of the header turns the disk from worth the old home blocks to worth the new ones |
| LogDisk.CommitWorth | kernel/log.c:192-202 | at every write of a commit the disk is worth the old home blocks before the header write and the new ones from it on |
| LogDisk.CrashAtomicity | kernel/log.c:68-122 | a crash after any write of a commit and any sequence of crashing recoveries, then a completed one: all home blocks are as before the transaction, or all as after it, decided by whether the header write was reached |
| Log.Log.WriteLog | kernel/log.c:176-190 | the writes are exactly the first part of the commit trace |
| Log.Log.WriteHead | kernel/log.c:101-113 | the header on disk lists exactly the logged blocks, in one sector write |
| Log.Log.InstallTrans | kernel/log.c:68-82 | every logged block reaches its home through the cache, in the order of the header |
| Log.Log.Commit | kernel/log.c:192-202 | the sector writes are those of the commit trace that CrashAtomicity speaks of, no write at all if nothing is logged, and the header is empty after it |
| Log.Log.RecoverFromLog | kernel/log.c:115-122 | the sector writes are those of the recovery trace, from whatever sound disk the crash left |
| GroupCommit.LogWritePending | kernel/log.c:213-233 | logging a block makes it pending once, whether it is absorbed or appended |
| GroupCommit.AppendBlockInv | kernel/log.c:176-190 | write_log copies what was logged last for the block, because the buffer is pinned and nobody holds it |
| GroupCommit.InstallBlockInv | kernel/log.c:68-82 | installing a block makes its home block current and keeps all else the log relies on |
| GroupCommit.StepInv | kernel/log.c:125-233 | every step of an operation, the committer, recovery or a crash keeps the invariant between cache, log, disk and history, as long as a block entered by log_write finds room, which its test does not ensure |
| GroupCommit.PassedStep | kernel/log.c:213-233 | nothing that others do between the test and the lock of log_write, short of a crash, takes away what entering the block needs |
| GroupCommit.WorthSaved | kernel/log.c:68-122 | in every state the disk recovers to the effect of the committed part of the history |
| LogSafety.RecoveredIsWholeOperations | kernel/log.c:125-174 | crash in any state of any run of operations below MAXOPBLOCKS blocks, or of at most MAXOPBLOCKS on a log of more than LOGSIZE sectors: what recovery restores is the effect of a prefix of the history in which every operation that began has ended, and the whole history if nothing was in progress |
| LogSafety.CommittedStays | kernel/log.c:145-174 | what is committed at one point of such a run is committed, in the same order, at every later point |
| LogSafety.ReadsSeeLatest | kernel/bio.c:96-106 | whoever holds a valid buffer not changed since reads what was logged last for the block by any operation |
| LogSafety.NoEarlyHomeWrite | kernel/log.c:68-82 | in such a run a home block changes on disk only while the header on disk already names it |
| LogSafety.PinnedStays | kernel/bio.c:78-91 | a buffer the log has marked dirty stays in the cache until its block is installed |
| LogSafety.EnterAlwaysPossible | kernel/log.c:221-232 | in such a run a process that has passed the test of log_write can always enter its block |
| LogOverrun.TestDoesNotBound | kernel/log.c:218-229 | with operations of MAXOPBLOCKS blocks a run exists in which two processes pass the test together and the header lists one block more than the log has sectors for |
| LogOverrun.OverwritesNeighbour | kernel/log.c:176-190 | in the commit that follows, write_log overwrites the home block behind the log while the header on disk is empty |
| LogOverrun.SafeExactly | kernel/log.c:125-233 | with the constants of the system, operations of at most m blocks, for any m, can overfill the header, or change a home block early, exactly when m is at least MAXOPBLOCKS |
| LogSpace.WriteReserved | kernel/log.c:213-233 | a logged block is paid for by the reservation of the operation that logs it |
| LogSpace.EndReserved | kernel/log.c:145-163 | an operation that ends gives back what it did not use, and no more |
| LogSpace.BeginReserved | kernel/log.c:125-142 | the test in begin_op admits an operation only if all admitted ones fit; below MAXOPBLOCKS two entries stay over |
| LogSpace.Reservation | kernel/log.c:125-174 | in every run the logged block numbers are distinct, and they with the unused reservations never exceed LOGSIZE |
| LogSpace.NoPanicBelowMax | kernel/log.c:213-219 | if every operation logs fewer than MAXOPBLOCKS blocks, the header stays at most LOGSIZE - 2 long and the panic is unreachable on an image with LOGSIZE log sectors |
| LogSpace.PanicExactly | kernel/log.c:218-219 | with the constants of the system and the image of mkfs, operations of at most m blocks, for any m, can reach the panic exactly when m is at least MAXOPBLOCKS |
| LogSpace.Header.TryBegin | kernel/log.c:126-141 | one pass of the loop is a step of the log-space machine that the results above speak of, and an operation is kept waiting exactly when the machine has no such step |
| LogSpace.Header.Test | kernel/log.c:218-221 | the tests at the head of log_write are a step of that machine, and panic exactly when it has none or no operation is outstanding |
| LogSpace.Header.Append | kernel/log.c:223-232 | the search and the entry, with the lock held, are a step of that machine: the block is listed once |
| LogSpace.AppendFits | kernel/log.c:228-230 | while operations keep to MAXOPBLOCKS blocks, the entry is within the array, whatever happened since the test |
| LogSpace.Header.EndOp | kernel/log.c:146-163 | ending is a step of that machine, the panic on a running commit is unreachable, and the last operation, and no other, starts the commit |
| LogReservation.StepProjects | kernel/log.c:125-233 | every step of the full machine with cache and disk is a step of the log-space machine, or leaves it alone, or is the end of the last operation with nothing to commit |
| LogReservation.HeaderNeverFull | kernel/log.c:125-233 | in the full machine with cache, disk and crashes the header stays at most LOGSIZE - 2 long below MAXOPBLOCKS blocks, and log_write does not panic |
| BufferCache.Cache.constructor | kernel/bio.c:38-56 | binit links all buffers into one cycle |
| BufferCache.Cache.Find | kernel/bio.c:69-76 | finds the buffer of the block if there is one |
| BufferCache.Cache.FindVictim | kernel/bio.c:81-91 | finds the least recently used buffer that is neither referenced nor dirty, and none only if there is none |
| BufferCache.Cache.Bget | kernel/bio.c:61-93 | keeps at most one buffer for a block, takes a further reference or recycles the least recently used buffer, and panics exactly when the block is not cached and nothing can be recycled |
| BufferCache.Cache.Brelse | kernel/bio.c:120-141 | prev and next stay inverse on a cycle through all buffers; the last reference moves the buffer to the front and keeps the order of the others |
| BufferCache.Cache.CommitTraffic | kernel/log.c:176-190 | the breads of write_log or install_trans never meet "bget: no buffers" if one buffer can be recycled; every reference count is as before, write_log leaves the blocks pinned and install_trans leaves none pinned |
| BufferCache.Cache.Commit | kernel/log.c:192-202 | if the blocks listed and the buffers that others reference are together fewer than the buffers, no bread of a whole commit panics, and afterwards no buffer is dirty and every reference count is as before |
| BufferCache.FewBusy | kernel/bio.c:78-93 | dirty buffers are no more than the blocks listed, so that one buffer can be recycled under that condition |
| IdeQueue.StepInv | kernel/ide.c:156-235 | every call, completion interrupt, wakeup and use of a buffer keeps the discipline of the queue |
| IdeQueue.Refines | kernel/ide.c:117-235 | every step of the driver is one iderw of the memory disk on the request that is due, or a change of a buffer outside the driver, or nothing |
| IdeQueue.QueueDiscipline | kernel/ide.c:156-235 | whenever idelock is free the device works on the head of the queue, requests are served in the order of the calls, and whoever sleeps on a buffer has it queued |
| IdeCalls.CallIsAtomic | kernel/ide.c:156-235 | between the entry and the return of a call of iderw there is exactly one moment at which a request for its buffer is carried out, and disk and buffer change as one access of the memory disk at that moment would change them |
| IdeQueue.Queue.Append | kernel/ide.c:213-219 | the request joins the end of the linked list |
| IdeQueue.Queue.Pop | kernel/ide.c:166-170 | the request leaves the front of the linked list |
| BlockBits.MarkOnly | kernel/fs.c:66-68 | setting a bit in its byte marks that block and no other |
| BlockBits.ClearOnly | kernel/fs.c:86-91 | clearing a bit in its byte frees that block and no other |
| BlockBits.InBlock | include/fs.h:43-47 | byte bi/8 and bit bi%8 of bitmap block q are those of block q*BPB+bi |
| FileBlocks.StoreLoad | kernel/fs.c:389-393 | a block number stored in a word of the indirect block is read back from that word, and every other word is unchanged |
| FileBlocks.BitmapExact | kernel/fs.c:55-95 | a bit is set exactly when the block is metadata or in a slot of an inode (direct, indirect, or listed in the indirect block), and no block is in two slots |
| FileBlocks.FilledInv | kernel/fs.c:372-400 | a free block put into any empty slot keeps the bitmap, the slots and the absence of holes consistent |
| FileBlocks.FilledKept | kernel/fs.c:372-400 | filling a slot changes no other slot and no byte of any file |
| FileBlocks.WrittenInv | kernel/fs.c:498-504 | writing into a data block changes no slot of any inode |
| FileBlocks.TruncatedInv | kernel/fs.c:407-435 | an inode emptied, with exactly its blocks freed, leaves the invariant to all others |
| FileBlocks.TruncatedContents | kernel/fs.c:407-435 | a truncated file is empty and every other file has its contents |
| FileOps.Files.Balloc | kernel/fs.c:55-78 | the lowest free block of the disk, zeroed and marked, and a panic exactly when every block is in use |
| FileOps.Files.Bfree | kernel/fs.c:80-95 | frees that block and no other; nobody ever frees a free block |
| FileOps.Files.Bmap | kernel/fs.c:372-400 | a block that is there is returned and nothing changes; otherwise it is allocated zeroed, with the indirect block if need be, no other slot and no byte of any file changes, and at most one bitmap block is logged for each allocation |
| FileOps.Files.WriteBlocks | kernel/fs.c:498-504 | after the loop the bytes are in place, no other byte has changed, and the blocks logged are the data blocks, the indirect block and one bitmap block for each allocation |
| FileOps.Files.Writei | kernel/fs.c:481-511 | refused exactly past the end of the file or of the largest file; otherwise the contents are the old ones with the bytes spliced in at the offset, every other file is unchanged, and the inode on disk equals the one in memory although it is written only if the file grows; blocks can only run out if the file grows; what is logged are the data blocks, the indirect block, bitmap blocks and the inode, and within the size of the file only the data blocks |
| FileOps.Files.Readi | kernel/fs.c:452-476 | exactly the requested slice of the contents, or -1 exactly past the end or on overflow of the sum; nothing is allocated or logged |
| FileOps.Files.Itrunc | kernel/fs.c:407-435 | every block of the file is freed, none twice, and no other; memory and disk agree afterwards; exactly the bitmap blocks of those blocks and the block of the inode are logged |
| FileTxns.Create | kernel/sysfile.c:241-283 | the new inode has its dots if it is a directory, the entry is in the parent and every other file is unchanged; at most nine blocks are logged, and at most seven if one bitmap block covers the disk |
| FileTxns.Link | kernel/sysfile.c:118-165 | the count is raised and the entry written, or the count taken back and no file changed; at most six blocks are logged, and at most five if one bitmap block covers the disk |
| FileTxns.Unlink | kernel/sysfile.c:184-239 | the entry is overwritten in a block that is there, so that writei does not panic, and exactly that block, the block of the inode, and for a directory that of the parent are logged |
| FileTxns.Iput | kernel/fs.c:331-352 | the last iput frees every block of the file and logs exactly the bitmap blocks of those and the block of the inode |
| FileSpread.UnlinkLast | kernel/sysfile.c:184-239 | the unlink of the last link with the freeing that follows it: the file is empty, the entry gone, every other file unchanged, and at most three blocks are logged beside the bitmap blocks that cover data blocks |
| FileSpread.NineParts | kernel/fs.c:407-435 | on every disk whose data blocks take nine bitmap blocks there is a sound state and a file whose freeing logs MAXOPBLOCKS blocks |
| FileSpread.FreeExactly | kernel/fs.c:407-435 | some file of some sound state is spread so far that freeing it logs MAXOPBLOCKS blocks or more exactly if more than eight bitmap blocks cover data blocks; with one, freeing any file logs at most two |
| FileOps.Files.WriteChunk | kernel/file.c:140-145 | one transaction of filewrite splices its bytes in or is refused, and logs at most MAXOPBLOCKS blocks, and at most 7 if one bitmap block covers the disk |
| FileWrites.Filewrite | kernel/file.c:133-153 | whatever other processes do to the files and to the shared offset between its transactions, every transaction splices its bytes in at the offset it finds, touches no other file and keeps within its reservation; the first one past the end of the file or the largest file ends the call with -1 |
| FileWrites.QuietWrite | kernel/file.c:133-153 | if nobody comes between, the transactions together are one write of all the bytes |
| FileOps.ChunkFits | kernel/file.c:127-133 | a chunk at any offset needs no more than its data blocks, the indirect block, the inode and one bitmap block for each block it may allocate, which is at most MAXOPBLOCKS |
| FileOps.WriteDone | kernel/fs.c:481-511 | a completed block-by-block write is a splice of the contents and leaves the invariant |
| FileOps.LogsSize | kernel/fs.c:481-511 | the number of distinct blocks a write logs, from its offset and length |
| Mkfs.LayoutFits | fs/mkfs.c:94-104 | every inode and every bit of the bitmap lies in its own stretch of the metadata |
| Mkfs.MarkToUsed | fs/mkfs.c:245-258 | the bitmap mkfs writes marks exactly the blocks below freeblock |
| Mkfs.Image.constructor | fs/mkfs.c:109-116 | a zeroed image with nothing handed out meets the invariant |
| Mkfs.Image.TakeSlot | fs/mkfs.c:279-292 | freeblock++ hands out a block nobody has, and it goes into one slot |
| Mkfs.Image.Iappend | fs/mkfs.c:263-305 | the bytes are appended to the file, every other file is unchanged, every block below the size is there and none beyond; fails only if the file gets too long or the image is full |
| Mkfs.Image.Finish | fs/mkfs.c:166-173 | the finished image meets the kernel's invariant, bitmap and all, and its root has no hole, exactly when the size of the root directory before rounding is not a multiple of the block size |
| Mkfs.RootExactly | fs/mkfs.c:166-171 | rounding the root up keeps the invariant, and leaves no hole, exactly in that case |
| Mkfs.RootEntries | fs/mkfs.c:118-171 | with 16-byte entries, exactly when their number is not a multiple of 32 |
| Mkfs.FullRoot | fs/mkfs.c:118-173 | an image built with 32 entries in the root has a root of two blocks with the second missing, so that it meets the invariant with no assignment of blocks to files |
| Directories.DirLookup | kernel/fs.c:524-548 | the first entry with the name, and none exactly when no entry has it |
| Directories.DirLink | kernel/fs.c:551-578 | refused exactly if the name is there, otherwise entered in the first empty slot |
| Directories.IsDirEmpty | kernel/sysfile.c:168-181 | true exactly when nothing follows the two dots |
| Directories.UnlinkInv | kernel/sysfile.c:184-239 | unlink, seen as one step, keeps link counts, names, dots and the directory tree right |
| UnlinkWindow.Refines | kernel/sysfile.c:207-229 | with unlink in two steps, one that clears the entry and unlocks the parent and one that lowers the count of the inode it still has locked, every step of any operation is one step of the directories in which unlink is atomic, or changes nothing there |
| UnlinkWindow.CountsBetween | kernel/sysfile.c:207-229 | in every run, also between those two steps of any number of unlinks, the count of an inode in use is the number of its names plus the links being made plus the one being taken away |
| UnlinkWindow.CountNeverZero | kernel/sysfile.c:207-229 | the second step never meets a count of 0, and the inode is not freed before it |
| Directories.UnlinkedDirHasNoLinks | kernel/sysfile.c:217-232 | unlinking an empty directory brings its link count to exactly 0 |
| Directories.LinkEnterInv | kernel/sysfile.c:144-153 | entering a counted link keeps them right |
| Directories.LinkExactly | kernel/sysfile.c:144-153 | after a link all link counts are right exactly when the directory it is entered into is itself still linked |
| Directories.CountOnlyInv | kernel/sysfile.c:138-164 | raising the count before the entry, taking it back, and reclaiming an inode without links keep them right |
| Directories.CreateInv | kernel/sysfile.c:241-283 | create keeps them right in a directory that is linked |
| Directories.CreateExactly | kernel/sysfile.c:241-283 | after a create all link counts are right exactly when the parent has not been unlinked |
| Directories.CreateBreaksCounts | kernel/sysfile.c:241-283 | a run from an image: mkdir d, unlink d while it is in use, create x in d; x then has a link that no linked directory holds |
| Directories.LinkBreaksCounts | kernel/sysfile.c:117-165 | a run from an image: the same with a link to a file of the root entered into d |
| Directories.ImageInv | fs/mkfs.c:118-164 | the tree mkfs writes meets the invariant |
| Directories.LinkCounts | kernel/sysfile.c:117-283 | in every run from an image of mkfs that adds nothing to unlinked directories, the link count of every inode in use is the number of entries other than "." that name it in linked directories plus the links being made, and names in a directory are distinct |
| Directories.NoDangling | kernel/sysfile.c:117-283 | in every such run an entry of a linked directory names an inode in use |
| Directories.Tree.Unlink | kernel/sysfile.c:200-239 | refused exactly for a dot, a missing name or a directory that is not empty, and then nothing changes; the panic on a count below 1 is unreachable |
| Directories.Tree.Create | kernel/sysfile.c:249-283 | a new inode with its names, which is right exactly if the parent is still linked, or the file that has the name, or a refusal, and the panic only if no inode is free |
| Directories.Tree.Link | kernel/sysfile.c:130-164 | one more name exactly for a file whose new name is not taken, counted and found exactly if the directory is still linked; otherwise the raised count is taken back and nothing has changed |
| Paging.Partition | kernel/kalloc.c:87-124 | a page of the allocator is free, or in exactly one slot of one directory (as directory, table or user page), or held elsewhere |
| Paging.PteWritten | kernel/vm.c:84-86 | writing an entry changes that translation and no other in any address space |
| Paging.PdeWritten | kernel/vm.c:56-64 | adding a zeroed table changes no translation |
| PagingOps.FramesDisjoint | kernel/vm.c:388-418 | two address spaces never share a page of user memory |
| PagingOps.OutsideSeen | kernel/vm.c:388-418 | an address space that an operation does not work on shows the same flags and contents at every page |
| PagingOps.Jump | kernel/vm.c:333-334 | the jump over a missing table arrives at the first page of the next table in 32-bit arithmetic, for every address below KERNBASE |
| PagingOps.ScanTable | kernel/vm.c:333-334 | what the jump passes over has no page to free |
| PagingOps.KmapMappable | kernel/vm.c:131-143 | the four regions of kmap are whole pages, apart from one another and within the address space, also across the 32-bit wrap of the last one |
| PagingOps.Vm.constructor | kernel/kalloc.c:52-77 | freerange makes every page of the range free, once |
| PagingOps.Vm.Kalloc | kernel/kalloc.c:111-124 | a page that nobody has, or 0 exactly when none is free |
| PagingOps.Vm.FreeHeld | kernel/kalloc.c:87-106 | a page that no directory has becomes free, once, and every other page keeps its holder and its contents |
| PagingOps.Vm.Walkpgdir | kernel/vm.c:46-67 | fails exactly when the table is missing and none may or can be made; no translation in any address space changes |
| PagingOps.Vm.MapPage | kernel/vm.c:73-93 | panics exactly if a page is mapped there already; otherwise the page is mapped at the entry and nothing else changes, or no page was left for a table and nothing has changed |
| PagingOps.Vm.MapRegion | kernel/vm.c:73-93 | exactly the pages of the region are mapped to their physical pages, in 32-bit arithmetic, and it fails only without pages for tables |
| PagingOps.Vm.Setupkvm | kernel/vm.c:147-166 | a new directory with exactly the kernel's mappings, or 0 with the free pages, all pages in use and their contents as before; it fails only with at most 1024 pages free |
| PagingOps.Vm.Deallocuvm | kernel/vm.c:321-347 | the pages of the range, and no others, are freed and unmapped, as a page-by-page scan would; terminates for every old size up to KERNBASE |
| PagingOps.Vm.Allocuvm | kernel/vm.c:281-314 | in an empty range there is no panic: the new pages are there, zeroed and writable by the user, and nothing else changes, or on failure every page is as before and only tables are kept, and it fails only if fewer pages are free than the range and the missing tables could take; in a range that is not empty it never succeeds |
| PagingOps.Vm.Freevm | kernel/vm.c:350-368 | every page of the address space is freed, none twice, and no other page changes hands or contents |
| PagingOps.Vm.Copyuvm | kernel/vm.c:388-423 | the child shows the parent's flags and contents at every page below sz, the kernel's mappings and nothing else, and the parent is unchanged; or 0 with everything as before and the same pages free, only if at most 1024 more pages are free than there are pages below sz; it panics only if a page below sz is missing, and never succeeds then |
| PagingOps.Vm.Growproc | kernel/proc.c:190-210 | grows or shrinks by the given amount or leaves the size; afterwards the pages that are there are those below the size exactly unless the process was shrunk to nothing, which is reported as a failure |
| PagingOps.ShrinkToNothing | kernel/proc.c:190-210 | a process that grows by a page and shrinks by it: the call fails, the size is one page and no page is there |
| SleepLock.OwnersStep | kernel/sleeplock.c:22-48 | every step keeps the two spinlocks and the lock in agreement with where each process is |
| SleepLock.ForgottenStep | kernel/proc.c:557-629 | nobody who has committed to sleep is forgotten by the wakeup of a release |
| SleepLock.MutualExclusion | kernel/sleeplock.c:22-59 | at most one process holds the lock, and locked with lk.pid names it |
| SleepLock.NoLostWakeup | kernel/sleeplock.c:22-48 | in every interleaving, while a process sleeps on the lock it is held or a releaser has yet to finish its wakeup |
| SleepLock.NoDeadlock | kernel/sleeplock.c:22-48 | as long as a process is inside acquiresleep, the critical section or releasesleep, one of them can move |
| SleepLock.LostWakeupOtherwise | kernel/proc.c:577-580 | had sleep released the caller's lock before taking ptable.lock, a run would end with a process asleep on a free lock for good |
| ProcessRuns.StepInv | kernel/proc.c:217-464 | every step of fork, exit, wait, kill, sleep, wakeup and the scheduler, including the hand-off of ptable.lock across swtch, a fork preempted between its steps and a wakeup from an interrupt on an idle CPU, keeps the invariant |
| ProcessSteps.ReapedIsOff | kernel/proc.c:326-346 | the kernel stack that wait frees is in use on no CPU |
| ProcessRuns.ProcessTree | kernel/proc.c:272-357 | in every run every started process other than init has a parent that is neither unused nor a zombie, and its parent chain reaches init |
| ProcessRuns.WaiterHasLiveChild | kernel/proc.c:317-357 | a process asleep in wait has a child and none that has exited |
| ProcessRuns.WaitedOnce | kernel/proc.c:317-357 | no pid is returned by wait twice, or while a process has it |
| ProcessRuns.RunningIsCurrent | kernel/proc.c:369-464 | whenever ptable.lock is free a process is RUNNING exactly when it is current on a CPU, and on no more than one |
| ProcessTable.Table.Wakeup1 | kernel/proc.c:612-620 | exactly the processes asleep on the channel become runnable |
| ProcessTable.Table.AbandonChildren | kernel/proc.c:300-307 | exactly the children go to init, which is woken exactly if one of them is a zombie |
| ProcessTable.Table.ScanChildren | kernel/proc.c:326-346 | the first zombie child, or none exactly if there is none, and whether there is a child at all |
| Pipe.IndexSurvivesWrap | kernel/pipe.c:93 | a counter taken modulo 2^32 still gives the slot of the ring |
| Pipe.FullAcrossWrap | kernel/pipe.c:85 | the tests for a full and an empty pipe are right across wraparound |
| Pipe.Ring.Put | kernel/pipe.c:93 | the byte joins the end of the contents |
| Pipe.Ring.Get | kernel/pipe.c:113-117 | the oldest byte leaves the contents |
| Pipe.Ring.Write | kernel/pipe.c:78-98 | as many bytes as fit join the contents in order |
| Pipe.Ring.Read | kernel/pipe.c:113-117 | the oldest bytes leave in order, as many as asked for or there are |
| Pipe.InOrderWithoutLoss | kernel/pipe.c:78-121 | in every interleaving the bytes read followed by the bytes in the pipe are the bytes written |
| Pipe.EndOfFile | kernel/pipe.c:100-121 | end of file is reported only when the pipe is drained and the write end closed, and then everything written has been read |
| Pipe.SleepersRested | kernel/pipe.c:78-121 | in runs without kill a sleeping reader means an empty pipe that can still be written, a sleeping writer a full one that can still be read |
| Pipe.RestedExactly | kernel/pipe.c:85-91 | every step keeps that, exactly except the segment of a killed writer that fills the pipe while a reader sleeps |
| Pipe.KilledWriterStrandsReader | kernel/pipe.c:86-89 | a run in which this happens |
| Umalloc.Heap.FindPlace | user/umalloc.c:30-32 | the walk ends, at the gap of the circular list where the block belongs |
| Umalloc.Heap.Free | user/umalloc.c:24-43 | the list stays circular, ascending and coalesced, live blocks stay disjoint from it and one another, units are conserved, and the freed units are in one free block |
| Umalloc.Heap.Morecore | user/umalloc.c:46-61 | below 2^28 units the units from sbrk are new and end up free, and some free block then has room, or nothing has changed; from 2^28 units on sbrk is asked for something else, and it fails exactly if that takes the process down to nothing |
| Umalloc.Heap.Malloc | user/umalloc.c:63-90 | a block of the asked number of units that overlaps no live block, or 0 with the heap as it was only if no free block has room; morecore succeeds at most once a call; a request of 2^28 units or more is never served: sbrk has freed the whole process exactly when its argument takes the break to 0, and otherwise what morecore takes for new memory is not backed by sbrk |
| Umalloc.FreedGood | user/umalloc.c:33-43 | coalescing with either, both or no neighbour keeps everything the list promises |
| Umalloc.TakenGood | user/umalloc.c:75-83 | taking all or the upper end of a free block keeps everything the list promises |
| Umalloc.RegionConserved | user/umalloc.c:52-59 | the region from sbrk overlaps nothing the allocator has |
| Umalloc.RoomExactly | user/umalloc.c:69 | the block has room for the request behind its header exactly when the addition in the unit count does not wrap around |
| Umalloc.AskedExactly | user/umalloc.c:52-54 | the argument of sbrk, a product of 32 bits taken as signed, is the size that morecore then uses exactly below 2^28 units, and not positive otherwise |
| Umalloc.ServedExactly | user/umalloc.c:52-69 | malloc counts enough units and asks for them exactly up to 0x7FFFFFF0 bytes |
| Umalloc.HugeRequests | user/umalloc.c:52-69 | three sizes beyond that, and what each comes to |
| Umalloc.LostExactly | user/umalloc.c:52-69 | the 8 sizes, for a break at a given unit, for which morecore asks sbrk to take the whole process away |
| Umalloc.LostRequest | user/umalloc.c:52-69 | a process of three pages and a size for which that happens |
| Regexp.MatchHere | user/grep.c:85-96 | true exactly when some beginning of the text is in the language of the pattern, all of it if the pattern ends in $ |
| Regexp.MatchStar | user/grep.c:99-106 | true exactly when some beginning of the text is a run of what the starred character accepts followed by a match of the rest |
| Regexp.Match | user/grep.c:72-82 | terminates and returns true exactly when some substring of the text, touching the ends it must touch, is in the language of the pattern |
| Regexp.HereExact | user/grep.c:85-96 | matching at the start is membership of a prefix in the language, with misplaced \*, $ and ^ taken literally |
| Regexp.StarExact | user/grep.c:99-106 | the shortest-first loop for a star loses no match |

## Left out

- Boot, assembly, interrupt controllers, serial port, keyboard, console and trap dispatch: port and register traffic.
- System call argument fetching, path parsing (skipelem, namex), exec and loaduvm: plumbing over the modelled functions.
- The shell, the small user programs and grep's read buffer: easier than the kernel.
- Byte layout of inodes, directory entries, the super block and the log header on disk: datatypes take their place; the words of an indirect block and the bits of the bitmap are modelled as bytes.
- kernel/spinlock.c: a spinlock is taken and given up in one step, with its owner; pushcli and popcli nesting is not modelled.
- copyout, uva2ka and clearpteu of kernel/vm.c: single-page accesses that only add easy members.
- iget, idup, ilock and the reference counts of inodes: an inode is the same value in memory and, after each operation, on disk; which references keep an unlinked inode is left to the step that reclaims it.
- The free list of kernel/kalloc.c is a sequence; the link word that kfree writes into the page is not modelled.
- GroupCommit.StepInv: buffers are unlimited in number there; when a commit finds buffers is BufferCache.Cache.Commit.
- LogSafety.RecoveredIsWholeOperations: holds for operations that change buffers only between bread and log_write while they hold them, which is how the file system uses the log, and for the bound on the blocks that an operation logs. With one bitmap block, as mkfs makes it, that bound is proved for filewrite (7), create (7), link (5) and unlink with its last iput (4); with more bitmap blocks filewrite can take up to MAXOPBLOCKS. The same bounds are not proved for a system call that also frees, in an iput on its path or at its end, a file or directory that another process has unlinked.
- FileTxns.Create: the inode and the offset of the entry are given, as ialloc and dirlookup find them; type, major, minor and nlink are not fields of the inodes there.
- LogDisk.CrashAtomicity: a sector write is atomic, logged blocks are distinct and outside of the log, and the header fits in one sector (kernel/log.c:56).
- IdeQueue.Refines: completions without disk errors; the controller's ports are not modelled.
- BufferCache.Cache.Commit: the buffers that others reference stay referenced during the commit, and the order in which processes wait for buffer locks is not modelled.
- FileOps.Files.Writei: devices (T_DEV) are not modelled, and after the panic for lack of blocks nothing is claimed but that every block is in use.
- Mkfs.Image.Iappend: inode numbers are given by the caller; ialloc's counter is not modelled.
- Directories.LinkCounts: adding to an unlinked directory is excluded; Directories.CreateExactly and Directories.LinkExactly show that it must be. A link count is unbounded, where the source has a short (include/fs.h), so that fewer than 32768 links to an inode are assumed.
- PagingOps.Vm.MapPage: mappages of one user page that the caller has allocated.
- PagingOps.Vm.MapRegion: mappages of a region of the kernel, in whole pages.
- PagingOps.Vm.Allocuvm: the page that could not be mapped is freed after the range, as in the source; the order of the free list is not claimed anywhere; after a panic nothing is claimed.
- ProcessRuns.WaitedOnce: process ids do not overflow.
- ProcessRuns.StepInv: the table has any number of entries in place of NPROC.
- Directories.UnlinkInv: unlink is one step there; UnlinkWindow has the two steps of the source.
- Umalloc.Heap.Malloc: sbrk answers as growproc does (kernel/proc.c:190-210), and other code moves the break only up and by multiples of the unit. After Unbacked, where memory that sbrk has not given is taken for free, and after Lost, where the memory of the process is gone, nothing is claimed.
- Pipe.InOrderWithoutLoss: a reader or writer runs from one point where it may sleep to the next in one step, under p->lock; pipealloc and the freeing of the pipe are not modelled.
