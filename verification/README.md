# xv6 in Dafny

A model of the hard core of the xv6 kernel and of three of its user programs (`xv6edk2/xv6`), with
proofs about it. The model keeps the form of the C code: what updates a structure in place is a class
whose methods loop and assign; what runs concurrently is a machine whose steps are the critical sections,
or the single disk writes, of the code; what recurses is a function.

- **Redo log** (`log.c`): `LogSpec` is what a group commit means, `LogMachine` the code one atomic step at a
  time under any number of processes and with a crash between any two disk writes, `LogTable` the reservation and
  who may commit, for every layout, `LogRefinement` the simulation between machine and specification, `LogTheorems`
  what follows about home blocks, panics and recovery, `LogDurable` what survives a crash once the log is at rest, `LogCalls` that
  the events are what the callers asked for, and `LogCode` the C functions with their loops. `LogLayout` has the on-disk format.
- **Files** (`fs.c`, `file.c`, `mkfs.c`): `FsLayout` and `FsState` have the formats and who owns which block,
  `FsGrowth`, `FsContents`, `FsFiles` and `FsTrunc` what each change does to owners and bytes, `Fs` the C functions,
  `File` the chunked write, `FileLog` its transactions as operations of the log, `Mkfs` the first image, `Mount` the kernel
  on that image.
- **Cache and disk** (`bio.c`, `memide.c`, `ide.c`): `Ring` and `Bio` have the linked cache over the in-memory disk,
  `BioLog` that cache as the one of the log's machine, `Ide` the queued driver against the in-memory one.
- **Memory** (`vm.c`, `kalloc.c`): `VmState` and `Vm`.
- **Processes** (`proc.c`, `sleeplock.c`, `pipe.c`): `Proc` and `ProcInv` have the process table and the CPUs, `ProcCalls` what each call does to the entries,
  `SleepWake` sleep and wakeup for all channels and locks, `SleepLock` the sleep lock as an instance of it, `Pipe` the ring buffer.
- **User programs** (`umalloc.c`, `sh.c`, `grep.c`): `FreeList` and `Umalloc`; `ShParse`, `ShNames`, `ShText`,
  `ShLex`, `ShGrammar`, `ShAppend` and `Sh`; `Grep`.

`dafny verify dfyconfig.toml` checks everything.

## Findings

Where a property that the comments of the code suggest does not hold, the code is modelled as it is, a
lemma gives the case, and another says exactly when the property holds.

- The log as `mkfs` lays it out (30 blocks, so 29 for data) is free of panics exactly when operations are held
  to fewer than ten distinct blocks, although MAXOPBLOCKS is ten; with ten, an unlucky interleaving even gets past the test in
  `log_write`, and the commit then writes over the first block after the log (`TenBlocksPanic`, `TenBlocksOverrun`, `PanicFreeExactly`). What is
  proved of a chunk of `filewrite` is that it logs at most ten, and at most seven on a disk whose bitmap is a single block (`WindowFits`, `WindowsAndTheLog`).
- `mkfs` leaves a hole at the end of the root directory exactly when its entries end on a block boundary; a run with thirty
  empty files on the disk it ships does (`Mkfs.Image.Make`, `RootHoleCase`).
- A block from `malloc` has room exactly when rounding the request up does not wrap. A request of 0x7ffffff1 to 0xfffffff8 bytes,
  where no free block is large enough, makes `morecore` ask `sbrk` for too little, and write a header for memory it does not have;
  no other request does (`Umalloc.Heap.Malloc`, `TooLargeExactly`, `TooLargeCase`, `NegativeCase`, `NoRoomCase`).
- A failed `copyuvm` loses one page exactly when the number of free frames, less two and the kernel's tables, is a multiple
  of 1025: it is then a page table that cannot be had (`Vm.Memory.CopyUvm`, `ShortBy`, `CopyLoses`).
- `>>` never appends: every line has the same command tree, mode and descriptor included, with each `>>` replaced by `>`
  (`AppendIsNoAppend`, `AppendCase`).
- A wakeup is never lost if the waker has taken the lock since the sleeper's test under it; without that it can be
  (`SleepWake.NoLostWakeup`, `LostWithoutLock`).

## Model

| member | source | states |
|---|---|---|
| `LogSpec.OperationsAreAtomic` | xv6edk2/xv6/log.c:11-15 | In every legal history each operation's writes are all in one committed group, after it has ended, and in no other; none of a later or running operation is there |
| `LogSpec.WriteContents` | xv6edk2/xv6/log.c:204-212 | A logged write changes what is visible at its block and nothing durable |
| `LogSpec.CommitContents` | xv6edk2/xv6/log.c:98-100 | Committing makes the visible contents durable and changes nothing visible |
| `LogLayout.Absorb` | xv6edk2/xv6/log.c:224-230 | log_write's list keeps its order and never holds a block twice |
| `LogLayout.PutHeader` | xv6edk2/xv6/log.c:102-111 | The header block reads back as the list that was put in it |
| `LogLayout.HeaderAt` | xv6edk2/xv6/log.c:86-101 | Count and block numbers are the header block's bytes, four each, least significant first |
| `LogLayout.RecoverMeaning` | xv6edk2/xv6/log.c:116-122 | Recovery gives every home block the contents that header and log say it has, and empties the header; recovering again gives the same |
| `LogRefinement.CrashImage` | xv6edk2/xv6/log.c:177-202 | At every point of commit and of recovery the disk recovers to exactly the durable contents |
| `LogRefinement.CommitPoint` | xv6edk2/xv6/log.c:98-100 | The first header write, a single disk write, is where the group becomes durable; no operation is active then |
| `LogRefinement.ReadsSeeWrites` | xv6edk2/xv6/log.c:231-231 | Through the cache every block reads as last logged, in every phase |
| `LogRefinement.StepSimulates` | xv6edk2/xv6/log.c:126-233 | Each atomic step of begin_op, log_write, end_op, commit, eviction, recovery or a crash is at most one step of the group-commit specification, and keeps the invariant |
| `LogRefinement.RunSimulates` | xv6edk2/xv6/log.c:126-233 | So does every run from a recoverable disk, with any number of processes and crashes |
| `LogRefinement.CrashSafety` | xv6edk2/xv6/log.c:69-233 | What recovery makes of the disk after any run is exactly the groups whose header write reached it, each operation whole or absent; while up, reads see the latest writes |
| `LogCalls.WritesAsCalled` | xv6edk2/xv6/log.c:213-233 | In every run a log_write takes effect for just the block and contents its caller gave it: the event is that write by the caller's operation, and from then on the block reads so and every other as before |
| `LogCalls.EndsAsCalled` | xv6edk2/xv6/log.c:125-174 | begin_op begins the next operation and end_op ends the caller's own |
| `LogDurable.NothingMislaid` | xv6edk2/xv6/log.c:145-233 | In every legal history, what an operation that began after the last crash wrote is, all of it, in one committed group or in the open one |
| `LogDurable.OpenKept` | xv6edk2/xv6/log.c:125-233 | Every step keeps that the open group is empty unless the list is not, and from the header write of its commit on |
| `LogDurable.AtRestAllIsDurable` | xv6edk2/xv6/log.c:145-202 | In every run, whenever nothing is outstanding and no commit runs, recovering the disk yields what reads see, and every operation that began after the last crash is whole in a committed group |
| `LogTheorems.HomeWrites` | xv6edk2/xv6/log.c:69-82 | A home block on disk changes only when install_trans reaches it, and then to its durable contents |
| `LogTable.AppendFits` | xv6edk2/xv6/log.c:132-139 | By the reservation in begin_op the block an operation is about to log has room, whatever the layout |
| `LogTable.Reserved` | xv6edk2/xv6/log.c:126-141 | While the system is up the list and all that is still reserved fit block[], and no block is listed twice |
| `LogTheorems.StepNeverPanics` | xv6edk2/xv6/log.c:146-221 | From any reachable state no step panics, given that the log has room for the bound |
| `LogTable.EndNeverPanics` | xv6edk2/xv6/log.c:151-156 | panic("log.committing") cannot happen: while committing nothing is outstanding |
| `LogTable.AppendNeverPanics` | xv6edk2/xv6/log.c:224-230 | An append within the budget does not overrun block[] |
| `LogTable.TableKeeps` | xv6edk2/xv6/log.c:125-202 | Every step of operations, commit, recovery and crash keeps the roles and the reservation, for every layout and up to MAXOPBLOCKS blocks an operation |
| `LogTable.ReservationHolds` | xv6edk2/xv6/log.c:125-233 | In every run, over any layout and disk and with the full MAXOPBLOCKS: list plus reservation within LOGSIZE, no block twice, one committer and then no operation, and neither panic("log.committing") nor an overrun of block[] |
| `LogTheorems.RunNeverPanics` | xv6edk2/xv6/log.c:218-221 | No run of operations within a budget that the log has room for panics |
| `LogTheorems.TenBlocksPanic` | xv6edk2/xv6/log.c:218-219 | With ten blocks an operation and nlog == LOGSIZE a run within the rules reaches panic("too big a transaction") |
| `LogTheorems.TenBlocksOverrun` | xv6edk2/xv6/log.c:218-230 | The length is tested before the lock is taken, so two writers can pass it together; the commit then writes the last block over the first home block after the log, and recovery finds it changed although nothing was committed |
| `LogTheorems.PanicFreeExactly` | xv6edk2/xv6/mkfs.c:25-25 | As shipped the log is panic-free if and only if operations are held to fewer than MAXOPBLOCKS blocks |
| `LogTheorems.RecoveryCompletes` | xv6edk2/xv6/log.c:116-122 | From any point recovery needs finitely many steps to be up, with the durable contents in place |
| `LogCode.Log.BeginOp` | xv6edk2/xv6/log.c:126-141 | Admits exactly when not committing and the reservation fits, and counts who is in |
| `LogCode.Log.LogWrite` | xv6edk2/xv6/log.c:214-233 | The block is absorbed into the list, cached and pinned; it panics, changing nothing, exactly on its two tests |
| `LogCode.Log.EndOp` | xv6edk2/xv6/log.c:146-163 | The last one out, and only it, commits |
| `LogCode.Log.WriteLog` | xv6edk2/xv6/log.c:178-190 | The log area holds the new contents of every listed block; every disk on the way recovers to the old |
| `LogCode.Log.InstallTrans` | xv6edk2/xv6/log.c:70-82 | Every home block has its logged contents; every disk on the way recovers to the new |
| `LogCode.Log.WriteHead` | xv6edk2/xv6/log.c:102-113 | The machine's header step: the header on disk becomes the list, in one disk write |
| `LogCode.Log.ReadHead` | xv6edk2/xv6/log.c:86-96 | The list in memory is the header on disk |
| `LogCode.Log.Commit` | xv6edk2/xv6/log.c:193-202 | Of the disks a crash could leave, those before the header write recover to the old contents and those from it on to the new |
| `LogCode.Log.RecoverFromLog` | xv6edk2/xv6/log.c:116-122 | Ends with the recovered contents at home and an empty log; every disk on the way recovers to the same |
| `FsLayout.MarkUsed` | xv6edk2/xv6/fs.c:67-71 | Sets one bit of a bitmap block and no other |
| `FsLayout.MarkFree` | xv6edk2/xv6/fs.c:88-93 | Clears one bit and no other |
| `FsLayout.DinodeRoundTrip` | xv6edk2/xv6/fs.c:222-237 | An inode stored in its block reads back, and its neighbours are untouched |
| `FsLayout.DinodeAt` | xv6edk2/xv6/fs.h:29-36 | Each field of an inode is at its place among the 64 bytes |
| `FsLayout.BitAt` | xv6edk2/xv6/fs.c:67-71 | The bit of a block is bit n % 8 of byte n / 8 |
| `FsState.SuperBack` | xv6edk2/xv6/fs.h:14-22 | The super block reads back as what was written, its seven words in order |
| `FsState.Allocated` | xv6edk2/xv6/fs.c:57-78 | Allocation takes a block that nobody owns, marks it, and moves no pointer, inode or owned block |
| `FsState.Released` | xv6edk2/xv6/fs.c:82-96 | Freeing clears one bit and moves no pointer, inode or data |
| `FsGrowth.GrewAddress` | xv6edk2/xv6/fs.c:380-382 | An address of the inode gains a fresh zeroed block, and bitmap and ownership still agree |
| `FsGrowth.GrewEntry` | xv6edk2/xv6/fs.c:391-396 | The same for an entry of the indirect block |
| `FsContents.ChunkWritten` | xv6edk2/xv6/fs.c:499-505 | bmap and the copy change exactly the bytes copied, of one file |
| `FsContents.ProgressOn` | xv6edk2/xv6/fs.c:499-505 | Each turn of writei extends what has been written, and exactly the blocks up to the end are mapped |
| `FsContents.BudgetOn` | xv6edk2/xv6/fs.c:374-401 | Each turn logs one data block and, only if the file grows, a bitmap block per block allocated |
| `FsFiles.WriteDone` | xv6edk2/xv6/fs.c:507-511 | A completed write splices the file, keeps the others, and leaves the inode on disk equal to the one in memory although iupdate runs only on growth |
| `FsFiles.WindowFits` | xv6edk2/xv6/file.c:127-133 | A write of filewrite's window logs at most MAXOPBLOCKS distinct blocks, none of them of the log, and at most 7 with a one-block bitmap |
| `FsTrunc.AddressFreed` | xv6edk2/xv6/fs.c:415-420 | A direct block is in use when itrunc frees it; then it is free and owned by nobody |
| `FsTrunc.EntryFreed` | xv6edk2/xv6/fs.c:425-428 | So is each entry of the indirect block, freed while still named there |
| `FsTrunc.IndirectFreed` | xv6edk2/xv6/fs.c:430-432 | Freeing the indirect block last gives up exactly what the inode still owned |
| `FsTrunc.TruncDone` | xv6edk2/xv6/fs.c:409-436 | The file is empty, exactly its blocks have no owner any more, the others are unchanged |
| `FsTrunc.OwnedCount` | xv6edk2/xv6/fs.c:374-398 | A file without holes owns as many blocks as its size takes, its indirect block among them |
| `FsTrunc.TruncSpare` | xv6edk2/xv6/fs.c:415-433 | Truncation gives back exactly as many free blocks |
| `FsGrowth.SpareTaken` | xv6edk2/xv6/fs.c:57-78 | A block that an inode gains is one free block less |
| `FsContents.MissingIs` | xv6edk2/xv6/fs.c:374-401 | What mapping the next block takes is what the size after it takes more |
| `Fs.FileSystem.BAlloc` | xv6edk2/xv6/fs.c:57-78 | Returns the lowest free block, marked and zeroed, or panics when every block is in use; what it changes it logs |
| `Fs.FileSystem.BFree` | xv6edk2/xv6/fs.c:82-96 | Frees a block that is in use; panics exactly when it is not; what it changes it logs |
| `Fs.FileSystem.BMap` | xv6edk2/xv6/fs.c:374-401 | Finds the block, or extends the file by a zeroed block nobody owned, with an indirect block if need be; says what it logs; panics exactly out of range or where fewer blocks are free than it has to allocate, and else takes that many; every block it changes is logged |
| `Fs.FileSystem.IUpdate` | xv6edk2/xv6/fs.c:222-237 | The inode table catches up with the inode in memory, and that block is logged |
| `Fs.FileSystem.ILock` | xv6edk2/xv6/fs.c:289-313 | Going over to another inode changes no file; panics exactly when it has no type |
| `Fs.FileSystem.WriteI` | xv6edk2/xv6/fs.c:483-512 | Fails exactly on a gap, a wrap or too long a file, changing nothing; panics exactly when fewer blocks are free than the new size takes more; otherwise the file is spliced, all others kept, bitmap, owners and the absence of holes preserved, that many blocks fewer are free, and the log charge is bounded; every block that is different was given to log_write |
| `Fs.FileSystem.WriteBlocks` | xv6edk2/xv6/fs.c:499-505 | writei's loop writes all the bytes within the log budget, exactly if the blocks it needs are free; within the file it never has to allocate |
| `Fs.FileSystem.ReadI` | xv6edk2/xv6/fs.c:454-478 | Returns the slice clipped to the size, and never allocates or changes anything |
| `Fs.FileSystem.WriteThenRead` | xv6edk2/xv6/fs.c:454-512 | Writing and then reading at the same place gives what was written, whenever the write is done; when it is not, exactly |
| `Fs.FileSystem.ITrunc` | xv6edk2/xv6/fs.c:409-436 | Empties the file, keeps its type and links and the other files, frees exactly its blocks (so "freeing free block" is unreachable), as many as its size took, logs only bitmap blocks and the inode; every block that is different is among them |
| `File.OpenFile.Window` | xv6edk2/xv6/file.c:140-146 | One transaction of filewrite: its write, its offset, that it fits the log, and exactly when it fails or panics; every block that is different is in the transaction |
| `File.OpenFile.FileWrite` | xv6edk2/xv6/file.c:118-158 | Writes all the bytes, or whole windows up to the one that is refused; the offset says how far; nothing happens to a file not open for writing or on a negative count; from the state before it, whether it writes all: no gap, not too long, and as many free blocks as it needs; every transaction fits the log; every block that is different is in one of them |
| `FileLog.WindowsAndTheLog` | xv6edk2/xv6/file.c:127-146 | On a one-bitmap disk with the shipped log, every transaction of filewrite logs home blocks only and is one that the seven-block machine runs, and no run of that machine panics; ten-block operations can make it |
| `FileLog.FitsClient` | xv6edk2/xv6/log.c:62-63 | With the log where the super block puts it, the machine refuses no block of such a transaction |
| `Mkfs.Image.constructor` | xv6edk2/xv6/mkfs.c:94-115 | The zeroed disk is a well-built image with no files, and freeblock is past the metadata; the super block is in sector 1 |
| `Mkfs.Image.IAlloc` | xv6edk2/xv6/mkfs.c:224-235 | The next inode, empty, of the type asked for and with one link; all files keep their bytes |
| `Mkfs.Image.IAppend` | xv6edk2/xv6/mkfs.c:256-297 | The file grows by the data, the others keep theirs, each new block has one owner; succeeds exactly when the file does not get too long and the blocks that its new size takes more are there, and takes that many |
| `Mkfs.Image.MapBlock` | xv6edk2/xv6/mkfs.c:269-286 | The block for a block number, taken from freeblock if it is missing, as bmap would; fails exactly when fewer are left than are missing |
| `Mkfs.Image.AddFile` | xv6edk2/xv6/mkfs.c:130-156 | A file on the command line gets an inode, an entry in the root and its bytes, the earlier files keep theirs; succeeds exactly when there is room for these three |
| `Mkfs.Image.WriteBitmap` | xv6edk2/xv6/mkfs.c:238-252 | Exactly the metadata blocks and the owned blocks are marked |
| `Mkfs.RootRounded` | xv6edk2/xv6/mkfs.c:158-163 | Rounding the root's size up keeps its bytes and leaves no hole if and only if it was not a multiple of the block size |
| `Mkfs.RootHoleCase` | xv6edk2/xv6/mkfs.c:158-163 | mkfs of thirty empty files on its own layout of 1000 blocks and 200 inodes succeeds and leaves a hole, whatever the names |
| `Mkfs.Image.Make` | xv6edk2/xv6/mkfs.c:108-166 | The image has the files and the root its entries in order, satisfies the kernel's bitmap and ownership invariant, and has no hole exactly when the root's entries do not end on a block boundary; succeeds exactly when the files and the root's entries fit the inodes, the longest file and, with the metadata and indirect blocks, the disk; inode 1 is a directory, and sector 1 still reads as the super block |
| `Mount.MakeAndMount` | xv6edk2/xv6/mkfs.c:108-166 | From the sizes of the files, exactly when mkfs succeeds and when the image has no hole; then the kernel's file system invariant holds of it and its inodes hold the files |
| `Mount.ReadFile` | xv6edk2/xv6/fs.c:454-478 | The files given to mkfs are read back by the kernel, byte for byte |
| `Fs.FileSystem.constructor` | xv6edk2/xv6/fs.c:300-307 | The inode in hand is the one of the table, and the invariant holds |
| `Ring.Unlink` | xv6edk2/xv6/bio.c:132-133 | Taking a node out of the doubly linked ring leaves a ring of the others in order |
| `Ring.Push` | xv6edk2/xv6/bio.c:134-137 | Putting a node after the head leaves a ring with it in front |
| `Bio.RecycleAgrees` | xv6edk2/xv6/bio.c:82-86 | Recycling an unreferenced clean buffer loses no content and caches no block twice |
| `Bio.FillAgrees` | xv6edk2/xv6/bio.c:101-104 | A block that no valid buffer holds is up to date on disk |
| `Bio.WriteAgrees` | xv6edk2/xv6/bio.c:110-116 | Writing a buffer out makes disk and content meet at its block, and changes no content if it was valid |
| `Bio.BufferCache.constructor` | xv6edk2/xv6/bio.c:39-56 | binit makes a ring of all buffers |
| `Bio.BufferCache.Lookup` | xv6edk2/xv6/bio.c:69-76 | The forward scan finds the buffer of the block if and only if there is one |
| `Bio.BufferCache.FindFree` | xv6edk2/xv6/bio.c:81-91 | The backward scan finds the least recently used buffer that is unreferenced and clean, or there is none |
| `Bio.BufferCache.BGet` | xv6edk2/xv6/bio.c:62-93 | A counted reference to the block's only buffer; nothing referenced or dirty is recycled; panics only where the block is not cached and no buffer is free; the buffer recycled is the one used longest ago among the free ones |
| `Bio.BufferCache.IdeRw` | xv6edk2/xv6/memide.c:39-60 | Writes a dirty buffer, fills an invalid one with the newest content; its four panics exactly |
| `Bio.BufferCache.BRead` | xv6edk2/xv6/bio.c:97-106 | The buffer holds the newest content of the block |
| `Bio.BufferCache.BWrite` | xv6edk2/xv6/bio.c:110-116 | Disk and content of the block meet in the buffer's data |
| `Bio.BufferCache.Modify` | xv6edk2/xv6/bio.c:9-19 | A holder's change of the data is a change of that block's content alone |
| `Bio.BufferCache.Unref` | xv6edk2/xv6/bio.c:128-138 | The last reference moves the buffer to the front of the list, which stays a permutation of all buffers |
| `Bio.UnlockAgrees` | xv6edk2/xv6/bio.c:123-126 | Unlocking keeps the newest contents safe if and only if the buffer was written or pinned since it was changed |
| `Bio.BufferCache.AcquireSleep` | xv6edk2/xv6/sleeplock.c:22-32 | The lock is taken, and nothing else changes |
| `Bio.BufferCache.ReleaseSleep` | xv6edk2/xv6/bio.c:123-126 | The lock is given up; panics exactly when it was not held; the cache stays in order exactly if what was changed has been written or pinned |
| `Bio.BufferCache.Pin` | xv6edk2/xv6/log.c:231-231 | A pinned buffer is kept until it is written |
| `BioLog.FillIsFetch` | xv6edk2/xv6/bio.c:97-106 | bread of an uncached block is the log machine's Fetch |
| `BioLog.WriteIsWriteBack` | xv6edk2/xv6/bio.c:110-116 | bwrite is its WriteBack |
| `BioLog.PinIsAppend` | xv6edk2/xv6/log.c:231-231 | A change under the lock and the pin are what its Append does to the cache |
| `BioLog.RecycleIsEvict` | xv6edk2/xv6/bio.c:81-91 | Recycling is its Evict, which never takes a dirty block |
| `BioLog.StepShows` | xv6edk2/xv6/bio.c:61-141 | Whatever step a buffer takes, the log machine can follow, and its cache, dirty set and disk are those of the buffers |
| `BioLog.RunShows` | xv6edk2/xv6/bio.c:61-141 | So it is over every run of such steps |
| `Ide.Serve` | xv6edk2/xv6/ide.c:117-125 | Serving the oldest request as the in-memory disk would keeps every other request's agreement with the disk |
| `Ide.MemIdeDoes` | xv6edk2/xv6/memide.c:52-59 | A dirty buffer goes to its block and no other block changes; a buffer that is not dirty is filled from its block and the disk stays |
| `Ide.OneTransfer` | xv6edk2/xv6/memide.c:52-59 | That determines the disk and the buffer completely |
| `Ide.ServedFaithful` | xv6edk2/xv6/ide.c:117-125 | Serving the head keeps that whoever waits has its buffer as it came, and whoever was served to write has its data |
| `Ide.Join` | xv6edk2/xv6/ide.c:155-159 | A new request at the end of the queue keeps the queue's agreement with the disk if and only if no caller has a buffer for the same block |
| `Ide.Driver.Append` | xv6edk2/xv6/ide.c:156-159 | The walk over qnext puts the request last |
| `Ide.Driver.IdeStart` | xv6edk2/xv6/ide.c:76-102 | The command for the buffer is the one active; panics exactly on a block number out of range |
| `Ide.Driver.constructor` | xv6edk2/xv6/ide.c:52-72 | Nothing is queued and no command is active |
| `Ide.Driver.Change` | xv6edk2/xv6/bio.c:9-19 | What a holder does to its buffer between requests disturbs no request |
| `Ide.Driver.IdeRw` | xv6edk2/xv6/ide.c:140-163 | A request joins the queue and is started if it is alone; the queue stays in order exactly if no other caller has a buffer for the block; its panics exactly, but for that on the lock |
| `Ide.Driver.IdeIntr` | xv6edk2/xv6/ide.c:106-133 | The head, the only active command, is served exactly as memide serves it; completion is in the order of the calls; a dirty buffer is then on the disk with its data as it was and every other block as before, and another holds what the disk has |
| `Ide.Driver.Finished` | xv6edk2/xv6/ide.c:166-171 | A caller gets out exactly when served, with a valid, clean buffer equal to the disk block; if it came to write, with the data it came with |
| `VmState.TableAdded` | xv6edk2/xv6/vm.c:48-55 | A zeroed table in an empty directory entry changes no other entry |
| `VmState.EntrySet` | xv6edk2/xv6/vm.c:74-76 | Writing one entry of a table changes no other entry of any address space |
| `Vm.Memory.constructor` | xv6edk2/xv6/kalloc.c:32-37 | Before kinit the kernel holds every frame |
| `Vm.Memory.FreeRange` | xv6edk2/xv6/kalloc.c:47-53 | Frees exactly the pages that lie wholly in the range |
| `Vm.Memory.KAlloc` | xv6edk2/xv6/kalloc.c:83-95 | A frame that was in no use, or none when none is free |
| `Vm.Memory.KFree` | xv6edk2/xv6/kalloc.c:60-77 | The frame is free again, its range check cannot fail, and no mapping or other page changes; the page is filled with ones but for its link |
| `Vm.Memory.Walk` | xv6edk2/xv6/vm.c:39-58 | The table of the entry, made if asked; takes one frame exactly when it is missing, and changes no user mapping; a new table is present, writable and the user's |
| `Vm.Memory.MapPage` | xv6edk2/xv6/vm.c:64-83 | Sets one absent entry; fails with nothing changed exactly when a table is missing and no frame is free; panics exactly on a remap |
| `Vm.Memory.AllocUvm` | xv6edk2/xv6/vm.c:230-257 | Succeeds exactly when the pages from oldsz to newsz are not there yet and there is a free frame for each and for every missing table; then exactly those pages are new and zeroed; panics exactly when it comes to a page that is there; when memory runs out, with none there, the user mapping is what it was and only tables were taken |
| `Vm.Memory.RollBack` | xv6edk2/xv6/vm.c:243-253 | The clean-up after a failure restores the user mapping where the pages were new, and keeps only tables |
| `Vm.Memory.DeallocUvm` | xv6edk2/xv6/vm.c:264-287 | Frees exactly the pages from newsz to oldsz, each once, its 4 MB strides included |
| `Vm.Memory.FreeVm` | xv6edk2/xv6/vm.c:292-306 | The directory, its tables and its pages become free, each once; nothing else changes |
| `Vm.Memory.SetupKvm` | xv6edk2/xv6/vm.c:124-145 | A directory with the kernel's tables at their entries, with the contents given, and no user page, exactly when there are frames for it; everything given back on failure |
| `Vm.KernelStays` | xv6edk2/xv6/vm.c:124-145 | Mapping user pages moves none of the kernel's tables and changes nothing in them |
| `Vm.Memory.CopyUvm` | xv6edk2/xv6/vm.c:324-351 | The child's pages have the parent's flags and bytes in frames that were free, the parent unchanged; panics exactly when it comes to a page the parent does not have; fails exactly when frames run out before that, and gives all back except, exactly when a table was one frame short, one page; the child has the kernel's tables |
| `Vm.Memory.CopyLoses` | xv6edk2/xv6/vm.c:340-350 | With one frame left for the one page and none for its table, the copy fails and the frame is lost |
| `Vm.NeedsFromNothing` | xv6edk2/xv6/vm.c:330-345 | A copy of n pages takes n frames and one table for every 1024 of them |
| `Vm.ShortBy` | xv6edk2/xv6/vm.c:339-350 | A failing copy holds a page it does not give back exactly for the frame counts that `Loses` describes |
| `Vm.Memory.StoreWord` | xv6edk2/xv6/vm.c:321-351 | After copyuvm address spaces are apart: a store through one changes one word of one page, and no page or entry of another |
| `Proc.Table.Wakeup1` | xv6edk2/xv6/proc.c:464-471 | Every sleeper on the channel, and nobody else, becomes runnable |
| `Proc.Table.FindUnused` | xv6edk2/xv6/proc.c:84-90 | The first unused entry |
| `Proc.Table.GiveAway` | xv6edk2/xv6/proc.c:262-268 | All children go to init, which is woken if one is a zombie |
| `Proc.Table.Exit` | xv6edk2/xv6/proc.c:256-271 | The whole effect of exit on the table |
| `Proc.Table.FindZombie` | xv6edk2/xv6/proc.c:288-307 | The first zombie child, or whether there are children |
| `ProcInv.StepKeeps` | xv6edk2/xv6/proc.c:76-503 | Every critical section of fork, exit, wait, the scheduler, yield, sleep, wakeup and kill keeps the invariant |
| `ProcInv.RunKeeps` | xv6edk2/xv6/proc.c:329-388 | So does every interleaving of them on any number of CPUs |
| `ProcInv.AllocKeeps` | xv6edk2/xv6/proc.c:77-98 | Taking an entry of the table keeps the invariant |
| `ProcInv.KStackKeeps` | xv6edk2/xv6/proc.c:100-104 | So does the kernel stack, or giving the entry back without one |
| `ProcInv.CopyVmKeeps` | xv6edk2/xv6/proc.c:199-206 | So does the copied address space, or giving stack and entry back without one |
| `ProcInv.PublishKeeps` | xv6edk2/xv6/proc.c:221-225 | So does making the child runnable |
| `ProcInv.ExitKeeps` | xv6edk2/xv6/proc.c:256-274 | So does exit, up to its switch to the scheduler |
| `ProcInv.WaitKeeps` | xv6edk2/xv6/proc.c:285-316 | So does a scan of wait: a zombie freed, nothing, or asleep |
| `ProcInv.SchedulerKeeps` | xv6edk2/xv6/proc.c:329-388 | So do the scheduler's steps and the switches to and from it |
| `ProcInv.RunningIffOnCpu` | xv6edk2/xv6/proc.c:341-358 | Whenever ptable.lock is free a process is RUNNING exactly when one CPU's proc field names it |
| `ProcInv.ParentsAlive` | xv6edk2/xv6/proc.c:256-271 | No live process ever has a zombie or unused parent |
| `ProcInv.WaitFreesOnce` | xv6edk2/xv6/proc.c:293-306 | wait frees a zombie's stack and page table once, when no other process has them and no CPU is on that stack |
| `ProcCalls.WaitDoes` | xv6edk2/xv6/proc.c:279-321 | wait reaps the lowest zombie child, giving up its entry and exactly its stack and page table; sleeps on itself if it has children, none a zombie, and is not killed; else changes nothing |
| `ProcCalls.WaitReaps` | xv6edk2/xv6/proc.c:279-321 | In every run it does just that, and what it frees no other process has and no CPU runs on |
| `ProcCalls.ExitDoes` | xv6edk2/xv6/proc.c:254-276 | exit leaves a zombie, gives the children to init, and makes runnable exactly the parent in wait and, with a zombie among the children, init in wait |
| `ProcCalls.KillDoes` | xv6edk2/xv6/proc.c:486-503 | The target is marked and, if it sleeps, runnable; nothing else changes |
| `ProcCalls.WakeupDoes` | xv6edk2/xv6/proc.c:464-480 | Exactly the sleepers on the channel become runnable |
| `ProcCalls.AllocDoes` | xv6edk2/xv6/proc.c:77-97 | The lowest unused entry becomes an embryo with the next pid |
| `ProcCalls.ForkDoes` | xv6edk2/xv6/proc.c:187-226 | A fork that gets its pages adds one runnable child of the caller, with the next pid, that stack and that page table, and changes nothing else |
| `ProcCalls.ForkFails` | xv6edk2/xv6/proc.c:194-207 | A fork without a stack or a page table leaves all entries in use and all pages as they were |
| `ProcCalls.PidsDiffer` | xv6edk2/xv6/proc.c:94-95 | In every run no two entries in use have the same pid |
| `ProcCalls.StopsRunning` | xv6edk2/xv6/proc.c:372-458 | After yield or sleep and the switch the CPU is idle and the process runnable, or asleep on its channel |
| `ProcCalls.StartsRunning` | xv6edk2/xv6/proc.c:329-360 | An idle CPU's scheduler can take any runnable process, which then runs there |
| `ProcInv.NothingLeaks` | xv6edk2/xv6/proc.c:187-305 | Every kernel stack and page table handed out belongs to a process, through every failure of fork, whatever stale fields a given-up entry keeps |
| `ProcInv.ExitWaitHandshake` | xv6edk2/xv6/proc.c:256-316 | At no time does a process sleep in wait while it has a zombie child, its own or one handed to init |
| `SleepWake.StepKeeps` | xv6edk2/xv6/proc.c:424-502 | Every step of sleep, wakeup, wakeup1 and kill, for any channel and lock, keeps who holds what and who is off the CPU |
| `SleepWake.NoLostWakeup` | xv6edk2/xv6/proc.c:424-480 | For all channels and locks, ptable.lock included, and every run: a waker at wakeup1(chan) that has acquired lk since p's test under lk finds p past its way into sleep, and p does not stay asleep |
| `SleepWake.HolderWakes` | xv6edk2/xv6/proc.c:434-445 | A waker that still holds lk finds nobody between a test under lk and sleep |
| `SleepWake.OnlyItsChannel` | xv6edk2/xv6/proc.c:464-471 | wakeup1 makes the sleepers on its channel runnable and leaves everybody else as they are |
| `SleepWake.LostWithoutLock` | xv6edk2/xv6/proc.c:439-445 | Without lk taken since the test, a wakeup can be slept through: a run, for every channel and lock but ptable.lock |
| `SleepLock.RunInstance` | xv6edk2/xv6/sleeplock.c:22-42 | Every run of the sleep lock is a run of the general machine on one lock and one channel |
| `SleepLock.RunKeeps` | xv6edk2/xv6/sleeplock.c:22-42 | Every interleaving keeps: the spinlocks have their holders, the sleep lock one, and every sleeper a waker |
| `SleepLock.StepKeeps` | xv6edk2/xv6/sleeplock.c:22-42 | Each single step of acquiresleep, sleep, wakeup and releasesleep does |
| `SleepLock.OneHolder` | xv6edk2/xv6/sleeplock.c:22-32 | At most one process holds the sleep lock |
| `SleepLock.NoLostWakeup` | xv6edk2/xv6/sleeplock.c:22-42 | The general law at this lock: at wakeup1 no process is between its test and its sleep; all who found the lock taken are asleep and become runnable |
| `SleepLock.SleeperHasWaker` | xv6edk2/xv6/sleeplock.c:35-42 | Whoever sleeps on the lock has a holder or a releaser to wake it |
| `SleepLock.NeverStuck` | xv6edk2/xv6/proc.c:434-457 | Some process can always take a step of its own, without any kill: the two spinlocks and the sleepers never deadlock |
| `Pipe.Ring.Tests` | xv6edk2/xv6/pipe.c:85-106 | The full and empty tests on the wrapped counters are right |
| `Pipe.Ring.Write` | xv6edk2/xv6/pipe.c:79-98 | Bytes are accepted in order; it stops short only with the pipe full |
| `Pipe.Ring.Read` | xv6edk2/xv6/pipe.c:101-121 | What all readers get is a prefix, in order, of what all writers put in, at most 512 bytes behind, across counter wrap-around; it waits exactly on an empty pipe with a writer, and gives up exactly when killed there |
| `Pipe.Ring.Close` | xv6edk2/xv6/pipe.c:60-75 | The page may be freed exactly when both ends are closed |
| `FreeList.Inserted` | xv6edk2/xv6/umalloc.c:36-42 | A block put between two nodes leaves the list circular, in address order and apart |
| `Umalloc.EnoughExactly` | xv6edk2/xv6/umalloc.c:69-69 | The block has room for nbytes if and only if rounding up does not wrap |
| `Umalloc.SbrkExactly` | xv6edk2/xv6/umalloc.c:54-54 | sbrk's argument, wrapped and read as an int, is the size of the units if and only if there are fewer than 2^28; else the break moves by less |
| `Umalloc.TooLargeExactly` | xv6edk2/xv6/umalloc.c:46-54 | In bytes: exactly the requests from 0x7ffffff1 to 0xfffffff8 |
| `Umalloc.TooLargeCase` | xv6edk2/xv6/umalloc.c:54-57 | malloc(0xfffffff8) asks for 2^29 units with sbrk(0) |
| `Umalloc.NegativeCase` | xv6edk2/xv6/umalloc.c:54-57 | malloc(0x80000000) gives sbrk a negative count, and for any process below 2 GB the new size wraps to more than the old one, so that it is not shrunk either |
| `Umalloc.NoRoomCase` | xv6edk2/xv6/umalloc.c:69-69 | malloc(0xfffffff9) gives a block without room |
| `Umalloc.FreeDone` | xv6edk2/xv6/umalloc.c:33-42 | Joining both neighbours keeps the list fully coalesced and every unit in exactly one block |
| `Umalloc.TakenWhole` | xv6edk2/xv6/umalloc.c:76-77 | Taking a whole block moves exactly its units from free to live |
| `Umalloc.TakenPart` | xv6edk2/xv6/umalloc.c:78-82 | Taking the end of a block moves exactly those units |
| `Umalloc.Grown` | xv6edk2/xv6/umalloc.c:54-59 | The units sbrk returned join the heap as one live block, disturbing nothing |
| `Umalloc.Heap.FindPlace` | xv6edk2/xv6/umalloc.c:30-32 | The walk ends, from any freep, at the neighbours of the block |
| `Umalloc.Heap.Free` | xv6edk2/xv6/umalloc.c:25-44 | The block's units become free and coalesced; other live headers are untouched |
| `Umalloc.Heap.MoreCore` | xv6edk2/xv6/umalloc.c:47-61 | What sbrk returns for the wrapped argument joins the free units and some free block is large enough; denied exactly when sbrk fails; short exactly from 2^28 units on |
| `Umalloc.Heap.Malloc` | xv6edk2/xv6/umalloc.c:64-90 | A block of the right size, overlapping no live or free block, with room exactly when rounding does not wrap; where no free block is large enough it is null exactly when sbrk fails and goes wrong exactly for the requests that are too large; the heap grows only then; ends within one more lap after morecore |
| `Umalloc.Heap.Take` | xv6edk2/xv6/umalloc.c:75-84 | The fit, whole or split, moves exactly the units asked for from free to live |
| `Umalloc.Heap.Store` | xv6edk2/xv6/umalloc.c:84-84 | Writing in a block that malloc returned touches no bookkeeping |
| `ShParse.LineBack` | xv6edk2/xv6/sh.c:345-446 | The grammar's parser inverts the printer on every command tree that it can yield |
| `ShGrammar.RedirsAre` | xv6edk2/xv6/sh.c:375-397 | For every list of tokens: one redirection for each symbol and file in front, `<` to read as descriptor 0, `>` and `>>` to write and create as descriptor 1; fails exactly if a symbol without a file is next |
| `ShGrammar.LineMade` | xv6edk2/xv6/sh.c:345-446 | Of every line: the brackets taken match, each word taken is in the tree once, and no command has too many |
| `ShGrammar.Shapes` | xv6edk2/xv6/sh.c:345-397 | Redirections nest with the last outermost, pipes and lists lean right, and & is for what is before it |
| `ShGrammar.Unmatched` | xv6edk2/xv6/sh.c:400-414 | A line whose brackets do not match is never accepted as a whole |
| `ShGrammar.Unclosed` | xv6edk2/xv6/sh.c:407-408 | An open bracket before any command, not closed after it, is refused |
| `ShGrammar.TooManyWords` | xv6edk2/xv6/sh.c:437-439 | Ten words or more, whatever follows, are refused |
| `ShGrammar.NoFile` | xv6edk2/xv6/sh.c:382-383 | A redirection without a file, after any words, is refused |
| `ShLex.ReadsLine` | xv6edk2/xv6/sh.c:266-308 | A line laid out in any way, with blanks of the five kinds between tokens or none where none are needed, is read as its tokens |
| `ShNames.MapParseLine` | xv6edk2/xv6/sh.c:345-446 | Parsing does not look into words: it commutes with renaming them |
| `ShText.ToksSpaced` | xv6edk2/xv6/sh.c:266-308 | Words lie in order and never touch |
| `ShText.LexRender` | xv6edk2/xv6/sh.c:266-308 | Tokens written out with blanks are read back |
| `ShText.ParseInvertsPrint` | xv6edk2/xv6/sh.c:328-446 | Every command tree over well-formed words is what its text lexes and parses to |
| `ShAppend.PlainLine` | xv6edk2/xv6/sh.c:382-394 | The parser makes the same tree of any tokens with every >> replaced by >, and fails on the same |
| `ShAppend.AppendIsNoAppend` | xv6edk2/xv6/sh.c:287-393 | The same over text: with each >> replaced by > and a blank a line has the same tree, over the same words at the same places |
| `ShAppend.AppendCase` | xv6edk2/xv6/sh.c:388-393 | a>>b opens b as a> b does |
| `Sh.Parser.GetToken` | xv6edk2/xv6/sh.c:266-308 | The next token and its span |
| `Sh.Parser.Peek` | xv6edk2/xv6/sh.c:311-320 | Whether the next token starts with one of the characters; no token is lost |
| `Sh.Parser.Redirections` | xv6edk2/xv6/sh.c:375-397 | parseredirs is the grammar's, errors included |
| `Sh.Parser.ParseBlock` | xv6edk2/xv6/sh.c:400-413 | parseblock is the grammar's |
| `Sh.Parser.ParseExec` | xv6edk2/xv6/sh.c:416-446 | parseexec is the grammar's, its limit on arguments included |
| `Sh.Parser.ParsePipe` | xv6edk2/xv6/sh.c:362-372 | parsepipe is the grammar's |
| `Sh.Parser.ParseLine` | xv6edk2/xv6/sh.c:345-359 | parseline is the grammar's; it ends on every input, the tokens left being the measure |
| `Sh.Parser.NulTerminate` | xv6edk2/xv6/sh.c:450-493 | Writes a null at the end of every word of the tree and nowhere else |
| `Sh.OwnString` | xv6edk2/xv6/sh.c:450-493 | No other word ends inside a word, so it still reads as its token |
| `Sh.Parser.ParseCmd` | xv6edk2/xv6/sh.c:328-342 | Succeeds exactly on the lines of the grammar; every argument and file name becomes exactly its token as a C string |
| `Grep.OneIs` | xv6edk2/xv6/grep.c:93-94 | A single-character item takes one character |
| `Grep.StarIs` | xv6edk2/xv6/grep.c:99-106 | A starred item takes any run of its character |
| `Grep.TextOfItems` | xv6edk2/xv6/grep.c:85-96 | Every pattern is the text of the items it is read as |
| `Grep.ItemsOfText` | xv6edk2/xv6/grep.c:85-96 | Items that a pattern can mean are read back from their text |
| `Grep.ReadsAs` | xv6edk2/xv6/grep.c:85-106 | What a literal, a dot or c* in front of a pattern, and a final $, match |
| `Grep.Anchored` | xv6edk2/xv6/grep.c:73-82 | ^ in front holds the match to the beginning |
| `Grep.MatchHere` | xv6edk2/xv6/grep.c:85-96 | True exactly when the text begins with a string that the pattern stands for |
| `Grep.MatchStar` | xv6edk2/xv6/grep.c:99-106 | The same for c* followed by a pattern |
| `Grep.Match` | xv6edk2/xv6/grep.c:73-82 | True exactly when the pattern matches somewhere, or at the start after ^ |

## Left out

- Directories, path lookup, the inode cache and its reference counts, link counts, system-call arguments: they add bulk over the inode layer.
- Port I/O, interrupt controllers, graphics, the network stack, the UEFI loader and its build scripts: hardware and firmware with no semantics in the sources.
- Spinlocks, memory barriers and `swtch` are atomic steps; interrupts are disabled where the code holds a spinlock.
- `LogRefinement.CrashSafety`: holds where the log has room for what the operations log; `LogTheorems.TenBlocksOverrun` shows what happens where it has not.
- `BioLog.RunShows`: follows the cache, the dirty set and the disk of the log's machine; which process takes the step, and the log's list, are the machine's own.
- `LogMachine`: an operation logs home blocks only, outside the log area, which is what the file system's layout gives it.
- `File.OpenFile.FileWrite`: no other writer of the same inode comes in between two windows, where filewrite lets go of the inode's lock.
- `Fs.FileSystem.WriteI`: a write to a device is the device's business and is answered with Device; running out of blocks is a panic, after which nothing is promised.
- `Fs.FileSystem`: one inode is in memory at a time; `ILock` goes from one to the next. Buffers are the block map that `Bio` and the log present.
- `Mount.MakeAndMount`: an image with a hole, on which the kernel would come up as well, is not handed over: the file system's invariant is one without holes.
- `Mkfs.Image.IAppend`: an image with more blocks or inodes than the disk has, which mkfs would write past the end, is a failure here; directory entries are given as bytes.
- `Bio.BufferCache.BGet`: waiting for the buffer's sleep lock is `SleepLock`'s matter; reference counts do not wrap.
- `Ide.Driver.IdeRw`: the caller holds the buffer's lock; disk errors and spurious interrupts are left out.
- `Vm.Memory.SetupKvm`: the kernel half of a page table is a given list of tables, because it depends on linker and video memory values; the loop of mappages over a range is in it.
- `Vm.Memory.AllocUvm`: where it runs out of memory with pages already there above the old size, deallocuvm frees those too; then only the invariant is promised.
- `Vm.Memory.MapPage`: mappages over one page, which is all that the user half is mapped by.
- `Umalloc.Heap.Malloc`: the memory that sbrk returns is given, and is fresh and above the rest; alignment to 8 bytes is the unit of addresses. After a header has been written for memory that is not there nothing is promised.
- `ProcCalls.WaitDoes`: the pid that wait returns, and what other calls return to the user, are not part of the steps.
- `Proc`: open files, the working directory and user memory of a process are left out; kill names the entry that its search by pid finds; a process back from sleeping in wait starts wait again; outside wait nobody sleeps on a process.
- `SleepWake`: sleeping with more locks held than lk, on which sched panics, is allowed there; spinlocks are atomic.
- `Pipe.Ring.Write`: a negative count, for which pipewrite returns that count, is left out; sleeping and waking are steps of `SleepWake`.
- `Sh.Parser.ParseExec`: argument and redirection lists are collected and wrapped at the end, where the code fills in an execcmd that is already wrapped. Running commands and reading lines are left out.
- `Grep.Match`: the line buffer of grep's main loop is left out.
- The model was not compiled or executed; what is stated is what is proved.
