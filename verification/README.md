# Verified models of the qos kernels

This project models the parts of qos whose correctness rests on state that many functions share, and
proves what they keep. Each module follows one source file or a part of it.

- **xv6 log, buffer cache and files** (`Blocks`, `Bio*`, `RedoLog`, `LogSystem`, `LogRuns`, `LogKernel`,
  `LogSpace`, `LogBuffers`, `Fs*`). A redo log with group commit over an LRU cache, the bitmap allocator, block maps,
  inodes, `readi`, `writei`, `itrunc` and `filewrite`. The log is proved crash-atomic and, with the cache,
  a refinement of two plain disks over all runs with crashes at any disk write. Files are proved to be
  plain byte sequences over all runs, with every block owned once. The two are composed: over the log and
  the cache, with crashes anywhere, the files are those of the calls that reached their commit.
- **Linux 1.0 interval lists** (`FileLock*`, `VmAreas`, `Mmap`, `MmapRuns`). fcntl record locks refine a map
  from byte to lock type per owner, down to the shared table of entries and its free list, and the memory
  areas of a process refine a map from address to page.
- **xv6 memory and processes** (`VmModel`, `VmKernel`, `VmSpace`, `SleepWakeup`, `ProcTable`, `ProcLife`, `Pipe`,
  `PipeRuns`). Frames are conserved by every address-space operation and its rollback; sleep and wakeup,
  sleep locks, the process table and pipes are step systems with invariants over every interleaving.
- **Stand-alone algorithms** (`Heap*`, `Timers`, `TimerRuns`, `Grep`). The c-os allocator with its headers as
  bytes of the arena, the Linux timer list and the regular-expression matcher of grep.

Code that updates state in place is modelled by classes and loops whose results are specified by
functions on values; the properties are proved about those functions and about whole runs. A number of
width 32 or 64 in C is an unbounded number with the wrap-around written out where it can happen. A panic
is a precondition, or a failure result where the caller can meet it.

Six properties turned out to need a condition, and the model states it exactly:

- `lock_it` keeps an owner's locks sorted and disjoint if and only if `fl_end + 1` does not wrap, which it does
  for a lock to the end of the file next to one of its own type (`FileLocks.LockGroupUpdates`,
  `FileLocks.WrapExample`). Safety between owners holds regardless.
- `log_write` never refuses a new block within an operation's budget if and only if the log region is
  larger than LOGSIZE; mkfs makes it exactly LOGSIZE (`LogSpace.NeverRefusedIff`). A block already logged
  is refused even then, exactly when the log is full: log_write looks at the length of the log first. This is
  reachable by three operations that log ten blocks each (`LogSpace.RefusedIff`, `LogSpace.AbsorbedRefused`).
- `bread` finds a buffer for every operation within budget if and only if the log's bound and three times the
  buffers an operation holds at once do not exceed NBUF; as shipped they do, with one buffer each
  (`LogBuffers.RunsOutIff`, `LogRuns.NoBuffersIff`).
- `do_mmap` without MAP_FIXED keeps the area list sorted if and only if the aligned length is not
  0xc0000000, where its sum wraps (`Mmap.Task.DoMmap`, `Mmap.WrapExample`).
- `qos_malloc` returns a block of the size asked for if and only if the size is at most 2^64 - 16, beyond
  which rounding up wraps to 0 (`Heap.Allocator.Malloc`, `Heap.MallocWraps`).
- `qos_realloc` copies within the new block if and only if the size is at most that, or the first free block
  leaves at least as much as the old block held (`Heap.Allocator.Realloc`, `Heap.ReallocWraps`).

## Model

| member | source | states |
|---|---|---|
| `FileLocks.LockGroup` | linux-1.0.0/fs/locks.c:285-403 | lock_it on one owner's group conserves table entries: locks in the group plus free entries never change in number |
| `FileLocks.LockGroupUpdates` | linux-1.0.0/fs/locks.c:272-403 | on ENOLCK or EINVAL nothing changes; on success the group stays sorted, disjoint and merged if and only if the fl_end + 1 of line 307 does not wrap on a touching lock, and then exactly the bytes of the request change type |
| `FileLocks.LockGroupBounded` | linux-1.0.0/fs/locks.c:272-403 | on any group at all, sorted or not, the owner ends with bytes it held before or asked for, each with the type it had or asked for |
| `FileLocks.UnlockNothing` | linux-1.0.0/fs/locks.c:272-403 | an unlock fails with EINVAL if and only if no byte of the range is locked |
| `FileLocks.ScanShape` | linux-1.0.0/fs/locks.c:294-377 | the walk over a sorted group stops with the locks before the request passed, the touching ones absorbed and the rest untouched, or stuck on the wrapped sum |
| `FileLocks.StuckIsWrap` | linux-1.0.0/fs/locks.c:307-308 | the walk gets stuck on a lock it should merge exactly for a request to OFFSET_MAX with a touching lock of its type |
| `FileLocks.WrapExample` | linux-1.0.0/fs/locks.c:307 | a concrete group and request on which the sum wraps and the result is not disjoint |
| `FileLockRoom.NormalForm` | linux-1.0.0/fs/locks.c:262-271 | two sorted and merged groups that hold the same bytes are the same group |
| `FileLockRoom.LockGroupAnswers` | linux-1.0.0/fs/locks.c:379-403 | lock_it answers EINVAL exactly for an unlock of bytes none of which is locked, ENOLCK exactly when the table has no entries for the group it must leave, wrapping requests included, and succeeds in every other case |
| `FileLockRoom.LockGroupFits` | linux-1.0.0/fs/locks.c:379-403 | for a request whose range does not wrap, with t the sorted merged group it must leave: ENOLCK if and only if there is something to do and t is longer than the group and the free list together; on success the result is t |
| `FileLockLists.LockItUpdates` | linux-1.0.0/fs/locks.c:272-403 | on the whole list of a file: a failed call changes nothing, a successful one changes the owner's bytes of the range and no byte of any other owner; groups stay sorted exactly when the request does not wrap |
| `FileLockLists.LockItSound` | linux-1.0.0/fs/locks.c:272-403 | for every request without a conflict, wrapping or not, owners stay contiguous and no byte is write-locked by one owner while another holds it |
| `FileLockLists.RemoveLocksSound` | linux-1.0.0/fs/locks.c:173-189 | fcntl_remove_locks keeps owners contiguous and the list safe |
| `FileLockLists.RemoveLocksClears` | linux-1.0.0/fs/locks.c:173-189 | close removes every byte the closing (owner, fd) held and no byte of another |
| `FileLockRuns.Prepare` | linux-1.0.0/fs/locks.c:94-134 | copy_flock and the mode checks: EINVAL exactly for a bad file, type, origin or range, EBADF exactly for a file not open for the lock, and else the range and type of the request in 32-bit arithmetic |
| `FileLockRuns.NoTwoOwners` | linux-1.0.0/fs/locks.c:94-189 | after any sequence of set, unlock and close by any owners, no byte is write-locked by one (owner, fd) while another holds it |
| `FileLockRuns.StepMeaning` | linux-1.0.0/fs/locks.c:94-189 | one call changes one byte of one (owner, fd) exactly as its reply says |
| `FileLockRuns.SetLkReply` | linux-1.0.0/fs/locks.c:94-171 | every answer of fcntl_setlk and its cause: bad arguments, a file not open for it, a byte of the range held against it by another owner, an unlock of nothing, no room in the table; granted in every other case |
| `FileLockRuns.RunReply` | linux-1.0.0/fs/locks.c:94-171 | over every run whose requests so far fit, the next request is granted exactly when its arguments are good, nobody else holds a byte against it, an unlock has something to unlock and the table has room |
| `FileLockRuns.RunMeaning` | linux-1.0.0/fs/locks.c:94-189 | over any run in which no granted request wraps a byte has for each (owner, fd) exactly the type last granted |
| `FileLockRuns.RunSorted` | linux-1.0.0/fs/locks.c:94-189 | over any such run every group of every file stays sorted, disjoint and merged |
| `FileLockTable.AllocOk` | linux-1.0.0/fs/locks.c:409-433 | linking a free entry in keeps every table entry on exactly one list, adds one lock at the place and leaves other files' lists alone |
| `FileLockTable.FreeOk` | linux-1.0.0/fs/locks.c:439-454 | unlinking an entry keeps every table entry on exactly one list and removes one lock |
| `FileLockTable.LockTable.constructor` | linux-1.0.0/fs/locks.c:41-50 | at first every entry is on the free list and every file has no lock |
| `FileLockTable.LockTable.Store` | linux-1.0.0/fs/locks.c:316-370 | a store through a list pointer changes one lock of one list |
| `FileLockTable.LockTable.AllocLock` | linux-1.0.0/fs/locks.c:409-433 | alloc_lock fails exactly on an empty free list, and otherwise inserts the lock at the pointed place of the file's list, a file without a list included; no other file changes |
| `FileLockTable.LockTable.FreeLock` | linux-1.0.0/fs/locks.c:439-454 | free_lock removes the pointed lock and frees its entry |
| `FileLockWalk.PassSame` | linux-1.0.0/fs/locks.c:300-331 | one turn of the loop on a lock of the same type, through the entries of the shared table, is one pass of the walk |
| `FileLockWalk.PassOther` | linux-1.0.0/fs/locks.c:335-376 | one turn on a lock of another type is one pass of the walk |
| `FileLockWalk.LockIt` | linux-1.0.0/fs/locks.c:272-403 | the pointer program on the shared table computes the outcome of the walk: same status, same list, same number of free entries; every entry stays on exactly one list and no other file changes |
| `FileLockWalk.FindConflict` | linux-1.0.0/fs/locks.c:140-160 | the scan finds the first lock that blocks the request, or none exists |
| `FileLockWalk.RemoveLocks` | linux-1.0.0/fs/locks.c:173-189 | the unlink loop takes exactly the closing owner's group off the file's list and gives its entries back |
| `FileLockCalls.FcntlSetlk` | linux-1.0.0/fs/locks.c:94-171 | fcntl_setlk on the shared table gives the reply and the lists of the specification |
| `FileLockCalls.FcntlRemoveLocks` | linux-1.0.0/fs/locks.c:173-189 | closing a descriptor does to the shared table what it does to the lists |
| `FileLockCalls.RunCalls` | linux-1.0.0/fs/locks.c:41-189 | after any sequence of calls every table entry is on exactly one list, the lists are those of the specification, and every reply is the one it gives |
| `Bio.BreadKeeps` | xv6/bio.c:61-106 | bread returns the block's current contents in a locked buffer; each block keeps at most one live buffer and no reader sees a change, whichever clean buffer is recycled |
| `Bio.ModifyKeeps` | xv6/bio.c:97-118 | a store into a held buffer changes what readers see of its block only |
| `Bio.BwriteKeeps` | xv6/bio.c:108-116 | bwrite puts the buffer on disk and changes no reader's view |
| `Bio.BrelseKeeps` | xv6/bio.c:118-141 | brelse keeps the LRU list a permutation of the buffers and every view |
| `BioRuns.InOrder` | xv6/bio.c:38-141 | in every run of bread, stores, log_write, bwrite and brelse from binit on, the LRU list is in the order in which the buffers were last given up |
| `BioRuns.TakesOldest` | xv6/bio.c:58-94 | in every such run a block that is not cached gets the buffer that, of the clean unreferenced ones, was given up the longest time ago; a cached block gets its own |
| `RedoLog.PutHeader` | xv6/log.c:98-113 | writing a header of any list and reading it gives the list back |
| `RedoLog.CommitStands` | xv6/log.c:176-202 | after any prefix of a commit's writes the disk stands for the old contents up to the header write and for the whole transaction from it on |
| `RedoLog.RecoverKeeps` | xv6/log.c:69-82 | a recovery cut at any write does not change what the disk stands for; a completed one clears the header |
| `RedoLog.CrashAtomic` | xv6/log.c:69-122 | commit, crash after any write, crash any number of recoveries anywhere, recover: every home block is wholly old or wholly new, decided by the header write |
| `LogRuns.RoomIff` | xv6/bio.c:78-92 | bget has a buffer to recycle if and only if fewer blocks are held or logged than there are buffers |
| `LogRuns.NoBuffersIff` | xv6/bio.c:61-94 | bread of a block nobody holds panics if and only if it is not logged and as many blocks are held or logged as there are buffers |
| `LogRuns.OpenStep` | xv6/bio.c:96-106 | bread returns the last value written |
| `LogRuns.CommitStep` | xv6/log.c:192-202 | a commit makes what readers see durable and changes no view |
| `LogRuns.BootStep` | xv6/log.c:116-122 | a kernel booted on a disk reads exactly what the disk stands for |
| `LogKernel.FindBuffer` | xv6/bio.c:68-76 | the forward scan finds the live buffer of a block |
| `LogKernel.FindVictim` | xv6/bio.c:78-92 | the backward scan finds the least recently used clean unreferenced buffer; a dirty one is never chosen |
| `LogKernel.FindLogged` | xv6/log.c:224-227 | the scan finds the block in the header or its end |
| `LogKernel.ParseHeader` | xv6/log.c:84-96 | read_head's loop reads the stored list |
| `LogRuns.BootIdle` | xv6/bio.c:38-56 | after binit every buffer is free, clean and unlocked, and the LRU list holds each once |
| `LogKernel.Kernel.LogWrite` | xv6/log.c:213-233 | log_write absorbs a block already logged or appends it, and pins its buffer |
| `LogKernel.Kernel.WriteLog` | xv6/log.c:176-190 | write_log performs the first n writes of the commit |
| `LogKernel.Kernel.InstallTrans` | xv6/log.c:69-82 | install_trans performs the home writes of the commit, and clears the dirty flags |
| `LogKernel.Kernel.RecoverFromLog` | xv6/log.c:116-122 | its disk writes are those of a recovery, in order |
| `LogKernel.Kernel.Commit` | xv6/log.c:192-202 | its disk writes are the commit's, in order, so home blocks change only after the header write |
| `LogKernel.Kernel.Crash` | xv6/log.c:116-122 | a machine stopped after any write, and stopped in any number of recoveries, boots with the durable or the current disk |
| `LogKernel.Run` | xv6/log.c:69-233 | any run of bread, log_write, brelse, commit and crashes refines two plain disks: every read returns the last value written, or the durable one after a crash |
| `LogSpace.LogNeverOverflows` | xv6/log.c:125-174 | in every interleaving of begin_op, log_write and end_op with at most MAXOPBLOCKS new blocks each, the log holds at most LOGSIZE blocks, nobody is inside an operation during a commit, and each operation lands in one commit |
| `LogSpace.EndCommits` | xv6/log.c:146-174 | end_op takes one operation away and begins a commit exactly when it was the last in progress |
| `LogSpace.NothingForgotten` | xv6/log.c:151-168 | in every interleaving a log that holds blocks while nobody is inside an operation is being committed |
| `LogSpace.LoggedCommitted` | xv6/log.c:125-202 | in every run a block an operation has logged is in the log when the commit that ends its epoch finishes, and nobody is inside an operation then |
| `LogSpace.BeginWaitsFor` | xv6/log.c:126-141 | begin_op waits only for operations in progress or for a commit |
| `LogSpace.RefusedIff` | xv6/log.c:213-221 | with log.size > LOGSIZE a log_write within budget panics if and only if the log holds LOGSIZE blocks; it is then on a block already logged, with every operation in progress at its budget |
| `LogSpace.AbsorbedRefused` | xv6/log.c:218-219 | that state is reachable: three operations that have logged ten blocks each, one of which logs its first block again |
| `LogSpace.RefusedSomewhere` | xv6/log.c:218-219 | so whatever the size of the region, some reachable log_write within budget is refused |
| `LogSpace.NeverRefusedIff` | xv6/log.c:218-219 | a new block within budget is never refused if and only if log.size > LOGSIZE; mkfs ships log.size = LOGSIZE |
| `LogBuffers.RunsOutIff` | xv6/bio.c:78-94 | in the interleavings of operations that hold up to h buffers each, some bread within budget finds no buffer if and only if the blocks the log can take plus 3h exceed NBUF |
| `LogBuffers.OutOfBuffers` | xv6/bio.c:78-94 | the run that gets there: the log filled to its bound by three operations, which then hold the remaining buffers |
| `Blocks.SetWord` | xv6/fs.c:387-392 | storing a 32-bit word changes that word and no other byte |
| `Blocks.SetBitIs` | xv6/fs.c:66-69 | setting or clearing a bitmap bit changes that bit only |
| `FsModel.OneOwner` | xv6/fs.c:372-400 | no block is named by two pointers |
| `FsModel.AllocKeeps` | xv6/fs.c:56-78 | balloc marks one block nobody owned, zeroes it, and moves no pointer |
| `FsModel.AllocAddr` | xv6/fs.c:377-381 | a new direct or indirect block gets one owner and the bitmap stays exact |
| `FsModel.AllocEntry` | xv6/fs.c:389-393 | the same for an entry of the indirect block |
| `FsInode.DecodeEncode` | xv6/fs.c:220-236 | iupdate then ilock gives the inode back and leaves the other inodes of the block alone |
| `FsInode.Layout` | xv6/fs.h:29-36 | the byte offsets of the fields of an inode in its block |
| `FsInode.IupdateKeeps` | xv6/fs.c:220-236 | iupdate writes one inode through and changes no pointer, bit or other inode |
| `FsTrace.ChangesLogged` | xv6/fs.c:36-46 | every block a transaction changes has been passed to log_write |
| `FsFile.FileSystem.Balloc` | xv6/fs.c:56-78 | balloc takes the lowest free block, or every block is in use; it reads no buffer that is already held |
| `FsFile.FileSystem.Bmap` | xv6/fs.c:372-400 | bmap leaves a mapped block alone; otherwise it adds zeroed blocks owned by the inode and changes nothing else; it logs at most a bitmap block per new block, the block and the indirect block |
| `FsBytes.ExtendsBytes` | xv6/fs.c:372-400 | allocation changes no byte of any file |
| `FsBytes.StoreByte` | xv6/fs.c:497-501 | storing a data block changes the bytes of that block of that file only |
| `FsReadWrite.Readi` | xv6/fs.c:452-477 | -1 exactly when off is past the size or off + n wraps; else exactly the bytes of the clipped range; with no holes it allocates, logs and changes nothing; it panics only for a range past the largest file or a hole on a full disk |
| `FsWritei.CopyIn` | xv6/fs.c:496-502 | the copy loop writes exactly the bytes given, across the direct and indirect blocks |
| `FsWritei.Writei` | xv6/fs.c:481-511 | -1 exactly when off is past the size or the end past MAXFILE blocks, and then nothing changes; else exactly [off, off+n) changes, the size becomes the larger of itself and off+n, ownership stays exact, no holes appear, and an inode without holes is on disk as in memory; the log blocks used stay within a stated budget |
| `FsWritei.EndShort` | xv6/fs.c:504-509 | a write that does not grow a file without holes leaves its inode, and so its disk copy, unchanged |
| `FsFilewrite.ChunkFits` | xv6/file.c:133-139 | a chunk of 1536 bytes needs at most MAXOPBLOCKS log blocks whatever its offset |
| `FsFilewrite.WrittenContent` | xv6/fs.c:481-511 | as flat byte sequences: the file is overwritten at off, every other file is the same |
| `FsFilewrite.WriteChunk` | xv6/file.c:140-145 | one transaction of filewrite: the chunk is written whole, within MAXOPBLOCKS log blocks |
| `FsFilewrite.Filewrite` | xv6/file.c:117-156 | n exactly when the write fits; on -1 the chunks already written stay; there is one transaction per 1536 bytes, each logs at most MAXOPBLOCKS blocks, and every block that changes is in one of them; the panic on a short write cannot happen |
| `FsTrunc.OwnedMarked` | xv6/fs.c:88-89 | a block a pointer names is marked, so bfree's panic cannot happen |
| `FsTrunc.Bfree` | xv6/fs.c:81-95 | bfree makes the block free and no other, and changes no inode and no block but one of the bitmap |
| `FsTrunc.Itrunc` | xv6/fs.c:407-435 | exactly the inode's blocks are given up, its inode is empty and on disk, and no other file or inode changes, although the code leaves stale entries in the indirect block it frees |
| `FsTrunc.TruncatedBytes` | xv6/fs.c:407-435 | truncation changes no byte of another file |
| `FsRuns.FormattedGood` | xv6/mkfs.c:94-103 | a file system whose bitmap marks exactly the metadata blocks and whose inodes are empty satisfies the invariant |
| `FsRuns.Step` | xv6/fs.c:407-511 | one readi, writei or itrunc does to the files what it does to plain byte sequences |
| `FsRuns.Run` | xv6/fs.c:372-511 | over any run every file is a plain byte sequence, every result is the one plain sequences give, every block has one owner, the bitmap is exact, no file has holes and every inode is written through; only a write on a full disk ends it, and the calls before that write have had their effect |
| `FsCrash.TransactionEnabled` | xv6/fs.c:36-511 | no bread, log_write or brelse of a transaction within budget sleeps for ever or panics |
| `FsCrash.ScriptRuns` | xv6/log.c:125-233 | a transaction ended by its commit, or by a crash after any buffer call or disk write and any cut recoveries, takes the disk to its result or leaves it as it was, decided by the header write |
| `FsCrash.ScriptReads` | xv6/bio.c:96-106 | what the log and the cache return to every bread of a transaction, up to its end, is the block as the file layer sees it |
| `FsCrash.Remount` | xv6/fs.c:287-313 | with every inode written through, what a reboot reads from disk is what was in memory |
| `FsCrash.Step` | xv6/fs.c:407-511 | a readi, writei or itrunc over the log and the cache, ended by its commit or a crash anywhere: its buffer calls are those that make the disk with the whole call's files, it lasts if and only if its transaction is in the log's header by the end, and the files, ownership and bitmap are those after it or those before it accordingly |
| `FsCrash.Run` | xv6/fs.c:372-511 | over any run of calls with crashes anywhere, each call is carried out on the files the lasting calls before it left and returns what plain byte sequences give; it lasts if and only if it commits or crashes after its header write; the disk always holds the files of the lasting calls, also when a write on a full disk ends the run |
| `VmAreas.InsertAt` | linux-1.0.0/mm/mmap.c:360-384 | inserting an area apart from the others maps its addresses and no other |
| `VmAreas.JoinPage` | linux-1.0.0/mm/mmap.c:420-437 | a merged area maps every address as its two parts did, file offset included where there is a file |
| `VmAreas.JoinMap` | linux-1.0.0/mm/mmap.c:420-437 | a merge keeps the list sorted and the address map |
| `Mmap.Task.InsertVmStruct` | linux-1.0.0/mm/mmap.c:360-384 | the area goes before the first area that starts above it; a list it does not overlap stays sorted |
| `Mmap.Task.UnmapFixup` | linux-1.0.0/mm/mmap.c:178-227 | what is left of an area after truncation at either end or a hole is put back, each address with its old page; bad arguments change nothing |
| `Mmap.Task.TakeOut` | linux-1.0.0/mm/mmap.c:262-277 | every area that meets the range, and no other, moves to the free list |
| `Mmap.Task.DoMunmap` | linux-1.0.0/mm/mmap.c:246-308 | EINVAL exactly on a bad range; otherwise no address of the range stays mapped, every other keeps inode, protection and file offset, and the list stays sorted and disjoint |
| `Mmap.Task.MergeSegments` | linux-1.0.0/mm/mmap.c:391-439 | the address map is kept, the list stays sorted, and no two neighbours could still be merged |
| `Mmap.Task.FindGap` | linux-1.0.0/mm/mmap.c:84-102 | the lowest page-aligned gap of the shared-memory range, or none exists; it fits if and only if len is not 0xc0000000, where addr + len wraps |
| `Mmap.PageAlignIs` | linux-1.0.0/mm/mmap.c:47 | PAGE_ALIGN gives the next page boundary, or 0 when the sum wraps |
| `Mmap.Task.AddArea` | linux-1.0.0/mm/mmap.c:445-470 | the new area is laid over the map and neighbours are merged |
| `Mmap.Task.DoMmap` | linux-1.0.0/mm/mmap.c:42-135 | every answer and its cause: EACCES exactly for a file not open for reading, or for writing when shared and written; EINVAL, ENOMEM, ENODEV and a failing mapper likewise; errors change nothing, a failing mapper clears a fixed range and changes no address otherwise; a success maps exactly the range, at the fixed address or the lowest gap, to the file at its offset, copy-on-write, shared-writable or read-only as asked; the list stays sorted if and only if the search did not wrap |
| `Mmap.WrapExample` | linux-1.0.0/mm/mmap.c:87-101 | a request of 0xc0000000 bytes in an empty address space leaves a list of one area that ends at 0: not sorted, and mapping nothing |
| `MmapRuns.Step` | linux-1.0.0/mm/mmap.c:42-308 | one call answers with its one cause and maps exactly what it asks for; only an unchecked request of 0xc0000000 bytes leaves an unsorted list |
| `MmapRuns.Run` | linux-1.0.0/mm/mmap.c:42-308 | over any run the list stays sorted and maps every address as the calls say, with the replies they get |
| `VmModel.OneOwner` | xv6/vm.c:35-80 | a user frame is mapped at one page of one directory |
| `VmModel.TakeKeeps` | xv6/kalloc.c:82-95 | kalloc moves one frame from the free list to its caller |
| `VmModel.GiveKeeps` | xv6/kalloc.c:59-76 | kfree moves one frame back; no frame is on the list twice |
| `VmKernel.Kernel.Walk` | xv6/vm.c:35-55 | walkpgdir finds or adds the table; no page of any directory is mapped differently; it fails if and only if the table is missing and no frame is free, and then changes nothing |
| `VmKernel.Kernel.Mappages` | xv6/vm.c:60-80 | exactly the given pages are mapped to consecutive frames, user pages take the frames over and every frame keeps one owner; it fails if and only if fewer frames are free than tables are missing, and leaves exactly the pages mapped before that |
| `VmKernel.Kernel.Deallocuvm` | xv6/vm.c:255-279 | exactly the pages from newsz to oldsz are unmapped and their frames freed, although whole missing tables are skipped |
| `VmKernel.Kernel.Freevm` | xv6/vm.c:283-298 | exactly the frames of the directory's tree are freed |
| `VmSpace.Setupkvm` | xv6/vm.c:118-136 | a new directory maps exactly the kernel half; it fails if and only if fewer than 65 frames are free, and then every frame is owned as before |
| `VmSpace.MapNew` | xv6/vm.c:233-246 | one new user page: mapped on a frame nobody had, or nothing is changed but the frame still in hand; it fails if and only if the frames for page and table are not there |
| `VmSpace.Allocuvm` | xv6/vm.c:221-249 | the new pages are zeroed, writable and on frames nobody had; below KERNBASE it fails if and only if fewer frames are free than pages to add and tables missing; on failure every mapping and page content is as before and only page tables of this directory may have been gained |
| `VmSpace.Copyuvm` | xv6/vm.c:315-345 | the copy has equal contents and flags on frames of its own; it fails if and only if fewer frames are free than 65, one per page and one per 1024 pages; on failure owners, mappings, contents and the set of free frames are as before |
| `VmSpace.Freerange` | xv6/kalloc.c:46-53 | exactly the whole frames inside the range are freed |
| `SleepWakeup.StepKeeps` | xv6/proc.c:417-474 | every step of every process keeps the locking, state and sleeping invariants |
| `SleepWakeup.NoLostWakeup` | xv6/proc.c:417-474 | in every interleaving, when wakeup1 runs a process in sleep on its channel either still holds the lock it called sleep with or is asleep and is woken; one that sleeps with ptable.lock is always asleep by then |
| `SleepWakeup.SleepLockSafe` | xv6/sleeplock.c:22-42 | in every interleaving a sleep lock has at most one holder, its flag says whether it has one, and when its spinlock is free and the flag clear nobody sleeps on it |
| `SleepWakeup.AcquireReturns` | xv6/sleeplock.c:22-32 | in every interleaving acquiresleep returns only with the lock, alone |
| `SleepWakeup.ReleaseReturns` | xv6/sleeplock.c:34-42 | in every interleaving releasesleep returns only without the lock |
| `SleepWakeup.SleepReturns` | xv6/proc.c:417-448 | in every interleaving sleep returns only with the lock it was called with, ptable.lock included |
| `SleepWakeup.HeldChanges` | xv6/sleeplock.c:22-42 | the locks a process has change only where acquiresleep finds the flag clear and where releasesleep clears it |
| `SleepWakeup.RunChanges` | xv6/proc.c:417-500 | a sleeper becomes runnable exactly by a wakeup1 of its channel or by kill, a runnable process runs exactly when the scheduler picks it, and a process sleeps exactly by its own step in sleep |
| `SleepWakeup.WaitsForOther` | xv6/proc.c:417-474 | in every interleaving a process inside these calls can go on, unless it is switched out or another holds the spinlock it is about to take |
| `SleepWakeup.HoldersMove` | xv6/proc.c:417-474 | in every interleaving the holder of ptable.lock can go on and the holder of an inner lock waits at most for ptable.lock, so no circle forms |
| `ProcTable.Wakeup1` | xv6/proc.c:455-465 | the loop wakes exactly the sleepers on the channel |
| `ProcTable.Abandon` | xv6/proc.c:255-262 | the loop hands every child to init and wakes init if one is a zombie |
| `ProcTable.FindZombie` | xv6/proc.c:281-301 | the first zombie child, or whether there are children |
| `ProcTable.FindUnused` | xv6/proc.c:81-83 | the first unused slot |
| `ProcTable.Ptable.Exit` | xv6/proc.c:250-266 | exit leaves the caller a zombie with its pid and parent, off its CPU; its children are init's and nobody is its child; its parent does not sleep in wait, nor init if it inherits a zombie; nothing else changes |
| `ProcTable.Ptable.Wait` | xv6/proc.c:272-312 | wait returns the pid of a zombie child of the caller, never one returned before, if there is one; else -1 exactly if the caller is killed or has no child; else it sleeps |
| `ProcTable.Ptable.Allocproc` | xv6/proc.c:74-92 | a new process gets an unused slot and a pid no live process has |
| `ProcTable.ExitKeeps` | xv6/proc.c:228-265 | exit keeps the table's invariant, reparenting and wakeups included |
| `ProcTable.ExitIs` | xv6/proc.c:228-266 | the exit of the table's step leaves a zombie, hands its children to init and wakes exactly its parent in wait and, for a zombie child, init |
| `ProcTable.ForkKeeps` | xv6/proc.c:180-220 | each part of fork, and reaping, keeps the invariant |
| `ProcTable.Reachable` | xv6/proc.c:73-474 | in every reachable state with ptable.lock free: no process is on two CPUs and each CPU's is RUNNING, live pids are distinct, no parent is UNUSED or ZOMBIE, nobody sleeps in wait with a zombie child, and no pid is reaped twice |
| `ProcLife.LifeCycle` | xv6/proc.c:73-500 | every step moves every process along an arrow between states, and each arrow has its one cause: allocation, fork's end or failure, the scheduler, yield, sleep or wait, exit, a wakeup, kill or exit that concerns it, reaping |
| `ProcLife.FieldsKept` | xv6/proc.c:73-500 | no step changes a pid, parent, killed flag, channel or CPU but for its own reason |
| `ProcLife.Yield` | xv6/proc.c:385-392 | yield makes the caller ready and frees its CPU |
| `ProcLife.Sleep` | xv6/proc.c:417-444 | the part of sleep under ptable.lock puts the caller to sleep on the channel and frees its CPU |
| `ProcLife.Wakeup` | xv6/proc.c:467-474 | exactly the sleepers on the channel become ready |
| `ProcLife.Kill` | xv6/proc.c:476-500 | the first slot with the pid is marked and woken; -1 exactly without one |
| `ProcLife.Schedule` | xv6/proc.c:323-357 | the scan picks the first ready process and runs it on the idle CPU |
| `HeapBlocks.AlignUpFits` | c-os/libc/libc.c:176-178 | the aligned size is the next multiple of 16, and at least the size if and only if the size is at most 2^64 - 16 |
| `HeapBlocks.Disjoint` | c-os/libc/libc.c:184-219 | payloads and headers of different blocks are disjoint |
| `HeapBlocks.AllFree` | c-os/libc/libc.c:207-219 | all blocks are free if and only if the heap is the one initial block |
| `HeapBytes.SplitWritten` | c-os/libc/libc.c:194-205 | the stores of a split write both headers and leave every other header readable |
| `HeapBytes.GlueWritten` | c-os/libc/libc.c:207-219 | so do the stores of one merge |
| `HeapBytes.PayloadWrite` | c-os/libc/libc.c:184-219 | a write inside a payload leaves every header of the list as it is |
| `Heap.Allocator.constructor` | c-os/libc/libc.c:184-192 | the initial heap is one free block, and its header is in the arena |
| `Heap.Allocator.Split` | c-os/libc/libc.c:194-205 | the blocks still tile the arena with their headers in it, the block keeps need bytes or all of them, and no live payload byte changes |
| `Heap.Allocator.Coalesce` | c-os/libc/libc.c:207-219 | no two neighbours stay free, live blocks and their bytes are kept |
| `Heap.Allocator.Malloc` | c-os/libc/libc.c:884-902 | 0 exactly for size 0 or when no free block is large enough; else the lowest fitting block becomes live with exactly the bytes the split leaves it, at least size of them if and only if the aligned size did not wrap, and no live payload changes |
| `Heap.Allocator.Free` | c-os/libc/libc.c:904-912 | the block and no other stops being live; no other payload changes; no two free neighbours remain |
| `Heap.Allocator.Realloc` | c-os/libc/libc.c:914-937 | the old bytes start the new block and every other payload is kept; a block that is large enough stays; failure changes nothing; the copy runs past the new payload if and only if size is above 2^64 - 16 and the first free block leaves less than the old block held |
| `Heap.MallocWraps` | c-os/libc/libc.c:884-902 | malloc of 2^64 - 1 on a new heap returns a payload of no bytes |
| `Heap.ReallocWraps` | c-os/libc/libc.c:914-937 | realloc of a live payload to 2^64 - 1 runs past the new one |
| `HeapRuns.Step` | c-os/libc/libc.c:884-937 | one call returns and does to the program's buffers exactly what its arguments and the free list say; it breaks the heap exactly when a realloc overruns |
| `HeapRuns.Run` | c-os/libc/libc.c:884-937 | over any run the blocks tile the arena with readable headers, the live payloads are the buffers as the calls left them, every result is the one the calls give, and with no buffer left the heap is the initial block; only an overrunning realloc ends it |
| `Timers.AddLeft` | linux-1.0.0/kernel/sched.c:407-427 | adding a timer leaves every other timer's remaining time alone and gives the new one its own |
| `Timers.AddOrder` | linux-1.0.0/kernel/sched.c:407-427 | the new timer goes behind those due no later and before the others, which keep their order |
| `Timers.RemoveLeft` | linux-1.0.0/kernel/sched.c:429-453 | deleting a timer leaves every other timer's remaining time alone |
| `Timers.RemoveOrder` | linux-1.0.0/kernel/sched.c:429-453 | deleting a timer keeps the order of the others |
| `TimerRuns.TimerList.AddTimer` | linux-1.0.0/kernel/sched.c:407-427 | the insertion loop computes that list |
| `TimerRuns.TimerList.DelTimer` | linux-1.0.0/kernel/sched.c:429-453 | 1 exactly when the timer is on the list, with its true remaining time; the 32-bit sums do not wrap |
| `TimerRuns.TimerList.DoTimer` | linux-1.0.0/kernel/sched.c:700-711 | every timer comes one tick closer, unless some timer is due already: then the tick is lost to all |
| `TimerRuns.TimerBh` | linux-1.0.0/kernel/sched.c:571-579 | the drain ends with no timer due, having fired due timers in list order while callbacks and interrupts add, delete and tick; left alone it fires exactly the due timers at the front |
| `TimerRuns.TickLeft` | linux-1.0.0/kernel/sched.c:700-711 | a tick that is not lost takes one tick from every timer |
| `TimerRuns.FiresOnTime` | linux-1.0.0/kernel/sched.c:407-453 | in every interleaving a timer added for n ticks fires on the n-th tick if and only if no tick was lost in between |
| `TimerRuns.NoneLate` | linux-1.0.0/kernel/sched.c:407-453 | in every interleaving, while the head is not due, every timer on the list has been counted fewer ticks than it was added for |
| `TimerRuns.DrainedOnTime` | linux-1.0.0/kernel/sched.c:566-580 | if the bottom half drains between ticks every timer fires on exactly its tick |
| `Pipe.WrapIndex` | xv6/pipe.c:93-116 | wrapped counters index the ring like unbounded ones because 512 divides 2^32 |
| `Pipe.WrapCompare` | xv6/pipe.c:85-114 | wrapped counters tell empty and full |
| `Pipe.Pipe.constructor` | xv6/pipe.c:33-36 | a new pipe is empty with both ends open |
| `Pipe.Pipe.WriteOn` | xv6/pipe.c:78-98 | bytes are stored in order until done; it sleeps or gives up only on a full ring, and gives up only without readers or when killed |
| `Pipe.Pipe.ReadOn` | xv6/pipe.c:100-121 | the next bytes in order, as many as there are up to n; 0 for n > 0 only on an empty pipe whose write end is closed |
| `Pipe.Pipe.Close` | xv6/pipe.c:59-75 | closing an end; the pipe is freed when both are closed |
| `PipeRuns.Fifo` | xv6/pipe.c:78-121 | in every interleaving the bytes the reads returned are a prefix of the bytes stored, and at most 512 are in flight |
| `PipeRuns.WritersInOrder` | xv6/pipe.c:78-98 | in every interleaving the bytes a process stored are, call after call, a prefix of each call's bytes: all of them if it returned n, not all if it gave up |
| `PipeRuns.ReadsNothing` | xv6/pipe.c:100-121 | a read of n > 0 bytes returns 0 if and only if the pipe is empty and its write end closed |
| `PipeRuns.Run` | xv6/pipe.c:59-121 | on any run the ring holds the flow these lemmas are about, and every caller gets its answer |
| `Grep.HereSplits` | xv6/grep.c:85-96 | a match at the start gives a division of the text among the pattern's atoms |
| `Grep.SplitsHere` | xv6/grep.c:85-96 | a division of the text among the atoms gives a match |
| `Grep.MatchHere` | xv6/grep.c:85-96 | true exactly when the atoms match at the start of the text |
| `Grep.MatchStar` | xv6/grep.c:99-106 | true exactly when some run of the character leaves a match of the rest |
| `Grep.Match` | xv6/grep.c:73-82 | true exactly when some position, or position 0 under a leading ^, admits a division of the text into literals, dots, stars and a trailing $ |

## Left out

- Hardware: disk, timer, interrupt and console drivers, boot and trap entry, segment registers and TLB; a disk transfer is one atomic block write, and swtch a change of the running process.
- Spinlocks and pushcli: a stretch under a lock is one step, or a step per access in SleepWakeup.
- Files that are devices or pipes in readi, writei and filewrite, and the readable and writable flags of open files.
- Inode allocation, the inode cache and its reference counts, link counts, directories, path lookup and system-call argument checks.
- FsCrash.Run: calls of the file layer run one at a time, each in a transaction of its own; several calls in one commit are in LogSpace only.
- FsFile.FileSystem.Balloc: a full disk is reported as failure, where the kernel panics.
- LogKernel.Run: one device; calls that would sleep on a held buffer or wait for log space are not steps of the run.
- ProcTable.Reachable: process ids are unbounded numbers; the overflow of nextpid after 2^31 processes is not modelled.
- Mmap.WrapExample: that the mapper succeeds on the wrapped range is an assumption; zeromap_page_range and the file mappers are not modelled.
- LogBuffers.RunsOutIff: readers outside operations, which hold buffers too, are not counted.
- Fairness and progress: nothing says that a sleeper woken is scheduled, or that a pipe reader is always woken when data arrives.
- exec, inituvm, loaduvm, copyout, clearpteu and the kernel stacks; kernel frames outside page tables are just held.
- VmSpace.Setupkvm: the linker's data address is a parameter, between the end of the first megabyte and PHYSTOP.
- Linux page tables under the area list, area operations with their own unmap, failing kmalloc, and inode reference counts.
- F_GETLK, the wait queues of blocked lockers, and which sleeper a freed lock wakes.
- The old timer table, the interval timers and the rest of do_timer and timer_bh.
- The rest of the C library, the c-os and Rust kernels, and user programs other than grep's matcher.
- The alignment of malloc's results, and use of the heap by several threads.
