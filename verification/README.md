# A verified model of an xv6 kernel and its user programs

xv6 for RISC-V is a small Unix: a journalling file system over a buffer cache, Sv39 page tables over
a page allocator, processes that sleep, fork, exit and wait, pipes, a virtio disk driver, and a few
user programs. This project models its hard parts in Dafny and proves what they are for.

**Crash-safe storage.** `Recovery` is recovery on disk images. `CacheModel`, `CacheRuns` and
`CommitSteps` are the buffer cache, runs of it and the single steps of commit on values. `Storage` is the machine whose steps are
the system's own: cache operations, operations on the log, and every single block write of commit,
with a crash possible between any two. `GroupCommit` is the admission of operations to the log.
`BufferCache` is kernel/bio.c as written, a linked LRU list, and `LogCode` is kernel/log.c as
written, with what its callers do to buffers; both are proved against the value models, and what
`LogCode` does, from begin_op to the last write of a commit, are steps of `Storage`. `LogRoom` says when
a commit finds its buffers.
`FileBlocks` and `FileSys` are the block allocator, block maps and file contents of kernel/fs.c and the
chunked writes of kernel/file.c; `FileLog`, `FileTight` and `FileRemove` count what they log, and
`FileImage`, `WideImage` and `BitImage` build the disks on which that is most.
`DiskFormat` is how a file system lies in the blocks of the log, and `FileCrash` joins the two: a write of
many chunks, each a transaction, with a crash anywhere.
`LinkCounts`, `LinkRuns`, `LinkRoom` and `LinkWrap` are directories and link counts, `LinkLaws` what the
calls on them answer and leave behind, `LinkOps` the code, and `DirBytes` the lookup and linking of names on the bytes of a directory's file.

**Memory.** `PteBits` is a page-table entry as the word that memory holds; `PageTree` is what three
levels of tables of such words denote and which page plays which role in them; `VirtualMemory` is
kernel/kalloc.c and kernel/vm.c; `ProcMemory` is the memory of processes over whole runs of fork, sbrk
and exit.

**Protocols.** `ExitWait` (fork, exit, wait, the scheduler) with `WaitAnswers`, `LifeCycle` and
`NoDeadlock`, `SleepWakeup` with `SleepLocks`, `VirtioQueue` and `VirtioDisk` against `DiskModel`, and `Pipe` against `PipeModel`, with who sleeps in `PipeWaits`.
Spin locks are atomic acquire and release steps; everything else may interleave.

**User programs.** `Umalloc` is the K&R allocator, `ShellGrammar` and `Shell` the shell's parser, with
`ShellLayout` and `ShellSyntax` on which texts it takes for what,
`Grep` the Kernighan-Pike matcher. `Options`, `Machine`, `Blocks` and `Counting` hold what several
modules share.

What is taken as given: a single block write is atomic; a spin lock excludes; a copy between user and
kernel memory either succeeds or fails as a whole for the bytes it is for (a parameter says which); the
disk completes every request with status 0; sbrk grants memory nobody else has (a parameter says
whether it does). Integer widths are written out where they matter: the 32-bit counters of the pipe,
the 16-bit ring indices, link counts and inode numbers in directories, the file system's `uint` offsets,
the `int` argument of sbrk, the 64-bit sum in growproc.

Where the code does not do what one would wish, the code is kept and the exact condition is proved:

- With a log area of LOGSIZE blocks, which is what mkfs makes, `log_write` can panic although every
  operation stays within its reservation (`GroupCommit.SmallAreaPanics`); with a larger area it cannot
  (`GroupCommit.RoomForReserved`). The panic test runs before absorption, so a full log panics even on a
  block it already holds (`GroupCommit.FullLogPanicsOnAbsorption`).
- Making or linking something in a directory that has itself been unlinked makes link counts wrong, and
  so does the 32768th link to a file, whose 16-bit count wraps: counts are kept exactly when the parent is
  linked and the count has room (`LinkCounts.LinkKeepsCounts`, `LinkCounts.CreateKeepsCounts`). A run of
  calls that wraps a count ends in unlink's panic (`LinkWrap.PanicReachable`). The calls of `LinkRuns`
  ask for a linked parent.
- A commit with every buffer pinned or in use cannot start (`LogCode.Log.CommitTransaction`). While no
  thread uses a buffer that takes as many logged blocks as there are buffers (`LogRoom.CommitRoom`).
  Three operations within their reservations get there with a log area of more than LOGSIZE blocks
  (`LogRoom.FillLog`), and never with the LOGSIZE blocks that mkfs makes.
- A transaction that truncates a file stays within MAXOPBLOCKS blocks if and only if the file's blocks lie
  under few enough bitmap blocks: nine for a truncation alone (`FileRemove.TruncateAlone`), seven, or eight
  if the two inodes share a block, for the unlink that removes the file (`FileRemove.UnlinkLast`). Files
  that exceed it exist on a disk of 200000 blocks (`WideImage.TruncateWide`, `WideImage.UnlinkWide`).
- A record of k bytes goes through a pipe whole if and only if k divides PIPESIZE
  (`PipeModel.RecordsWhole`, `PipeModel.RecordSplits`).
- A writer on a pipe that is killed half-way can leave a reader asleep over bytes, exactly if it is killed
  past its first byte and before its last, with room for the bytes up to there
  (`PipeWaits.NoReaderLeftAsleep`).
- `malloc` hands sbrk the size it needs exactly when that is less than 2^27 units (`Umalloc.RequestExact`,
  `Umalloc.RequestWraps`); `Umalloc.Heap.Malloc` says when it gets another amount.

## Model

| member | source | states |
|---|---|---|
| `Recovery.HeaderRoundTrip` | kernel/log.c:86-113 | a header block written by write_head is read back by read_head as the same list of block numbers |
| `Recovery.InstallPrefix` | kernel/log.c:68-83 | a crash after t installs has changed exactly the first t home blocks, to their logged contents |
| `Recovery.RecoverAt` | kernel/log.c:116-123 | recovery leaves each block outside the log as logged if the header names it and as it was otherwise, and an empty header |
| `Recovery.RecoveryRestarts` | kernel/log.c:116-123 | recovery that crashes at any block write and is run again ends in the same image |
| `Recovery.RecoverySurvivesCrashes` | kernel/log.c:68-123 | any number of crashes inside recovery, each at any block write, do not change where it ends |
| `CommitSteps.LogOneSpec` | kernel/log.c:178-191 | copying one block to the log writes that log block with the cached contents, and leaves cached data, pins and every other block alone |
| `CommitSteps.HeadOneSpec` | kernel/log.c:102-113 | writing the header changes the header block only and keeps the cache sound |
| `CommitSteps.InstallOneSpec` | kernel/log.c:68-83 | in a commit, installing one block copies it home, unpins it once and keeps the cache sound |
| `CommitSteps.ReadStuck` | kernel/bio.c:58-103 | bread panics if and only if the block is not cached and every buffer is referenced |
| `CommitSteps.LogOneRuns` | kernel/log.c:178-191 | copying a block to the log finds its buffers if and only if some buffer is unreferenced, and leaves one unreferenced |
| `CommitSteps.InstallOneRuns` | kernel/log.c:68-83 | the same for installing |
| `CommitSteps.HeadOneRuns` | kernel/log.c:102-113 | the same for writing the header |
| `Storage.NextKeeps` | kernel/log.c:127-235 | every step of cache, log, operations and commit keeps the invariant that ties cache, pins, log area, home blocks, logical and durable contents together |
| `Storage.RunKeeps` | kernel/log.c:127-235 | the invariant holds in every state of every run |
| `Storage.BreadIsTransparent` | kernel/bio.c:92-103 | in every run a buffer that bread hands out, locked, holds the disk overlaid with all logged writes |
| `Storage.PinnedStaysCached` | kernel/log.c:214-235 | a block in the log header stays cached, with one reference beyond its users, holding the logged data |
| `Storage.UnpinIsSafe` | kernel/log.c:68-83 | installing never finds a pin count of zero to decrement |
| `Storage.CrashSafe` | kernel/log.c:193-203 | in every state of commit, recovering from the disk as it is gives the durable contents |
| `Storage.CommittedIsDurable` | kernel/log.c:193-203 | when commit ends, home blocks, durable and logical contents agree |
| `Storage.DurableMoves` | kernel/log.c:193-203 | durable contents change only at the one header write, to the logical contents, when no operation is outstanding |
| `Storage.LatestCommit` | kernel/log.c:146-175 | the durable contents of any state are the logical contents of an earlier one with no operation outstanding |
| `Storage.CrashAtomicity` | kernel/log.c:68-203 | a crash at any point of any run, and any crashes inside the recoveries after it, leave the file system with all the effects of the operations up to some commit and none after, and an empty log |
| `GroupCommit.NextKeeps` | kernel/log.c:127-175 | begin, log, end and commit steps keep log entries plus unspent reservations within LOGSIZE and a committing log free of operations |
| `GroupCommit.ReservationsFit` | kernel/log.c:127-175 | in every run header entries plus unspent reservations are at most LOGSIZE, and committing implies nothing outstanding, so the panic in end_op is unreachable |
| `GroupCommit.RoomForReserved` | kernel/log.c:215-235 | with a log area larger than LOGSIZE an operation within its reservation never meets the panic in log_write |
| `GroupCommit.SmallAreaPanics` | kernel/log.c:219-223 | with any log area of at most LOGSIZE blocks a run exists in which an operation within its reservation panics on a new block |
| `GroupCommit.FullLogPanicsOnAbsorption` | kernel/log.c:219-232 | with a larger area a run exists in which writing a block already in the log panics |
| `GroupCommit.StorageFollows` | kernel/log.c:127-235 | every step of the storage machine is a step of the admission protocol or none |
| `GroupCommit.StorageReservations` | kernel/log.c:127-235 | so the bound and the absence of panics hold of the storage machine's runs |
| `CacheModel.GetSpec` | kernel/bio.c:58-89 | bget returns the one buffer for the block, cached or recycled from the least recently used unreferenced one, and keeps keys unique and the list complete |
| `CacheRuns.StepKeeps` | kernel/bio.c:58-136 | bget, brelse, bpin and bunpin keep: of two unreferenced buffers the one released later stands earlier in the list |
| `CacheRuns.RecyclesOldest` | kernel/bio.c:58-136 | in every run the buffer bget recycles is one that was released no later than any other unreferenced buffer |
| `BufferCache.UnlinkOk` | kernel/bio.c:125-130 | the two pointer writes of unlinking leave a doubly linked ring in the same order without the buffer |
| `BufferCache.LinkFrontOk` | kernel/bio.c:128-132 | the four pointer writes of linking put the buffer first and keep the ring |
| `BufferCache.AllBuffersListed` | kernel/bio.c:36-52 | the ring binit builds holds every buffer once |
| `BufferCache.BufferCache.constructor` | kernel/bio.c:36-52 | binit gives a sound ring of unreferenced, invalid buffers |
| `BufferCache.BufferCache.FindCached` | kernel/bio.c:66-73 | the forward scan finds the block's buffer if there is one, and there is at most one |
| `BufferCache.BufferCache.FindUnused` | kernel/bio.c:77-86 | the backward scan finds the least recently used unreferenced buffer if there is one |
| `BufferCache.BufferCache.Bget` | kernel/bio.c:58-89 | the code refines the value model's Get, including the case without buffers |
| `BufferCache.BufferCache.Brelse` | kernel/bio.c:116-136 | the code refines the value model's Release: at reference count zero the buffer moves to the front |
| `LogCode.Log.Bread` | kernel/bio.c:92-103 | bread refines the value model's Read, including its panic |
| `LogCode.Log.GetBuffer` | kernel/bio.c:58-89 | a caller's bget is the storage machine's step; it panics if and only if the block is not cached and every buffer is referenced |
| `LogCode.Log.LockBuffer` | kernel/bio.c:97-102 | locking a buffer, and reading it if it is not valid, is the storage machine's step |
| `LogCode.Log.ModifyBuffer` | kernel/log.c:205-213 | a change to a locked buffer by a thread inside an operation is the storage machine's step |
| `LogCode.Log.ReleaseBuffer` | kernel/bio.c:116-136 | brelse is the storage machine's two steps, unlocking and dropping the reference |
| `LogCode.Log.ReadBuffer` | kernel/bio.c:92-103 | what bread hands to a caller is the block as last logged |
| `LogCode.Log.WriteBlock` | kernel/log.c:205-235 | bread, change, log_write and brelse in a row make the logical contents those with the block replaced and add the block to the header once, counted for its operation, with every operation still outstanding, unless bget or log_write panics; exactly when they do |
| `LogCode.Log.WriteLog` | kernel/log.c:178-191 | the loop takes exactly the storage machine's log steps, one block write each; it gets through if and only if there is nothing to copy or some buffer is unreferenced |
| `LogCode.Log.WriteHead` | kernel/log.c:102-113 | the header block on disk becomes the header in memory, in one write |
| `LogCode.Log.InstallTrans` | kernel/log.c:68-83 | the loop takes exactly the storage machine's install steps, and gets through under the same condition |
| `LogCode.Log.CommitTransaction` | kernel/log.c:193-203 | commit is a path of storage steps from the cached transaction to one that is durable, with an empty log; it gets through if and only if nothing was logged or some buffer is unreferenced |
| `LogCode.FullLogStuck` | kernel/log.c:193-203 | with as many blocks logged as there are buffers every buffer is pinned, so the commit meets the panic in bget |
| `LogRoom.CommitRoom` | kernel/log.c:178-203 | while nobody uses a buffer some buffer is unreferenced if and only if fewer blocks are logged than there are buffers, and so always with a log area of at most LOGSIZE blocks |
| `LogRoom.FillBlocks` | kernel/log.c:205-235 | with a larger area three operations under way at once can each log MAXOPBLOCKS blocks, LOGSIZE together |
| `LogRoom.FillLog` | kernel/log.c:146-203 | and the commit at the last end_op then panics in bget |
| `LogCode.Log.BeginOp` | kernel/log.c:126-143 | an operation is admitted exactly when no commit is under way and its reservation fits |
| `LogCode.Log.LogWrite` | kernel/log.c:214-235 | panics exactly when the log is full or no operation is outstanding; otherwise the block is recorded once, pinned when new, as the storage machine's step |
| `LogCode.Log.EndOp` | kernel/log.c:146-175 | the last operation to end commits and leaves every home block on disk as last logged; exactly when that succeeds; the panic on a commit in progress is unreachable |
| `LogCode.Log.ReadHead` | kernel/log.c:86-97 | the header in memory becomes the one on disk |
| `LogCode.Log.RecoverFromLog` | kernel/log.c:116-123 | the images it writes, one by one, are those of recovery crashed after that many writes, and it ends in an initial state of the storage machine |
| `FileBlocks.TakenOwn` | kernel/fs.c:65-88 | marking and zeroing a free block keeps every block owned at most once and every bit right |
| `FileBlocks.AttachedOwn` | kernel/fs.c:382-410 | hanging a fresh block on a direct slot or as indirect block keeps ownership |
| `FileBlocks.EntrySetOwn` | kernel/fs.c:399-418 | the same for an entry of the indirect block |
| `FileBlocks.TruncatedOwn` | kernel/fs.c:425-453 | an inode without slots, whose blocks are free, keeps ownership for all the others |
| `FileSys.FileSystem.Balloc` | kernel/fs.c:65-88 | the lowest free block, zeroed, marked and owned by nobody yet; 0 only if every block is in use |
| `FileSys.FileSystem.Bfree` | kernel/fs.c:91-105 | exactly that block's bit is cleared; the panic on a free block is unreachable from its callers |
| `FileSys.FileSystem.Bmap` | kernel/fs.c:382-421 | the address of a file block, allocated zeroed from the lowest free blocks if missing, with every block still owned once; exactly which blocks get logged; failure only when the disk is full |
| `FileSys.FileSystem.Readi` | kernel/fs.c:471-499 | exactly the requested slice of the file's bytes, cut at its size, if every copy succeeds, and -1 if and only if one does not, with the bytes up to the first that fails; nothing is allocated or changed |
| `FileSys.FileSystem.Writei` | kernel/fs.c:505-539 | the bytes written are spliced into the file, no other file changes, a short count means a full disk or a failed copy, and the blocks logged are exactly those its passes over blocks need and the inode's, at most a function of offset and length; every copy that begins among the bytes written has succeeded |
| `FileSys.FileSystem.Itrunc` | kernel/fs.c:425-453 | exactly the inode's blocks become free, its contents are empty, no other file changes, and exactly their bitmap blocks and the inode's block are logged |
| `FileRemove.BitmapsFew` | kernel/fs.c:425-453 | a file's blocks lie under at most as many bitmap blocks as the disk has |
| `FileRemove.TruncateAlone` | kernel/sysfile.c:363-365 | truncation by open logs exactly the bitmap blocks of the file and its inode block; at most MAXOPBLOCKS if and only if the former are fewer than MAXOPBLOCKS, as on every disk of nine bitmap blocks |
| `FileRemove.UnlinkLast` | kernel/sysfile.c:188-243 | the transaction of unlink that removes the file for good logs exactly the block of the directory entry, the two inode blocks and the bitmap blocks of the file; at most MAXOPBLOCKS if and only if the last leave room for the others |
| `WideImage.TruncateWide` | kernel/fs.c:425-453 | for every n up to 12 a disk of 200000 blocks with a file under n bitmap blocks; truncating it logs n + 1 blocks, more than MAXOPBLOCKS from ten on |
| `WideImage.UnlinkWide` | kernel/sysfile.c:188-243 | unlinking it logs n + 3 blocks, more than MAXOPBLOCKS from eight on |
| `FileSys.FileSystem.WriteOneChunk` | kernel/file.c:153-170 | one chunk is one transaction of at most MAXOPBLOCKS distinct blocks; it is refused exactly past the size or the largest file, and short only if the disk is full or a copy fails; every copy among the bytes written has succeeded |
| `FileSys.FileSystem.FileWrite` | kernel/file.c:134-181 | the chunks together splice the bytes written into the file; the count falls short only for an offset past the size, a chunk past the largest file, a full disk or a failed copy; every copy among the bytes written has succeeded |
| `FileSys.SplicedContents` | kernel/fs.c:513-536 | what the block writes leave is the splice of the source into the old byte sequence |
| `FileLog.AllotsThen` | kernel/fs.c:65-88 | allocations in a row take the lowest free blocks, in order |
| `FileSys.ChunkFits` | kernel/file.c:149-152 | for every offset a chunk of the size filewrite uses needs at most MAXOPBLOCKS logged blocks, counting data, bitmap, indirect and inode blocks |
| `FileTight.ExactCount` | kernel/fs.c:382-421 | if all bitmap blocks differ, writei logs exactly one block for each file block, one for each block allocated, the indirect block and the inode's |
| `FileTight.WorstCount` | kernel/file.c:149-152 | four file blocks from the last direct one on, none beyond it there before and the lowest free blocks under different bitmap blocks: ten blocks are logged if the first file block was there, eleven if not |
| `FileTight.FullChunk` | kernel/file.c:149-170 | so on such a disk a full chunk at that place is written whole, no other file changes, and the passes of writei and the inode log exactly MAXOPBLOCKS blocks |
| `FileImage.ReachBound` | kernel/fs.c:505-539 | such a disk exists, with 200000 blocks laid out as mkfs does it, and the chunk written to it leaves the spliced file and logs MAXOPBLOCKS blocks |
| `DiskFormat.MountsBack` | kernel/fs.c:226-241 | a disk that stores a file system, inodes packed sixteen to a block, is read back as the same files with the same owner of every block |
| `DiskFormat.LeftToWrite` | kernel/fs.c:226-241 | after an operation on an inode only the blocks it has logged differ from what the disk stores |
| `FileCrash.Flush` | kernel/log.c:205-235 | every block an operation has logged reaches the log through the buffer cache with its contents, without a panic, and the log's callers then see the new file system |
| `FileCrash.WriteChunk` | kernel/file.c:153-170 | one chunk as one transaction of the log: afterwards the log is empty and its callers see the file system the chunk left; in between there is always an operation under way |
| `FileCrash.FileWrite` | kernel/file.c:134-181 | the whole write over the log, with a mark for each chunk: every state with no operation under way shows the file system of a mark, and a mark is a whole number of chunks or the end; every copy among the bytes written has succeeded |
| `FileCrash.CrashLeavesChunks` | kernel/file.c:153-170 | after a crash between any two disk writes of it, and any number of crashes in recovery, the recovered disk is a sound file system where the file has its old contents with the bytes of a whole number of chunks, or all that were written, spliced in, and every other file is as before |
| `FileCrash.ReturnedIsDurable` | kernel/file.c:153-181 | a crash after it has returned takes nothing back |
| `LinkCounts.EmptyDirOneLink` | kernel/sysfile.c:173-186 | a directory with only "." and ".." has exactly one link, the entry being removed |
| `LinkCounts.LinkKeeps` | kernel/sysfile.c:123-170 | link keeps every nlink, a 16-bit count with room for one more, equal to the number of entries other than "." naming the inode from linked directories, names unique and the directory tree sound |
| `LinkCounts.CreateKeeps` | kernel/sysfile.c:245-302 | create keeps the same, for files, devices and directories with their "." and ".." |
| `LinkCounts.UnlinkKeeps` | kernel/sysfile.c:188-243 | unlink keeps the same, for files and for empty directories |
| `LinkCounts.DropKeeps` | kernel/fs.c:336-362 | the last reference to an inode without links frees it, and nothing names it |
| `LinkCounts.LinkKeepsCounts` | kernel/sysfile.c:143-152 | link keeps the counts if and only if the parent directory is itself linked and the 16-bit count has room |
| `LinkCounts.CreateKeepsCounts` | kernel/sysfile.c:245-302 | create keeps the counts if and only if the parent directory is itself linked and, for a directory, its 16-bit count has room |
| `LinkCounts.OneLinkTooMany` | kernel/sysfile.c:145-216 | a link beyond the largest 16-bit count leaves an entry whose removal meets the panic |
| `LinkCounts.UnlinkedParentExample` | kernel/sysfile.c:188-302 | making a directory and removing it while somebody is in it leads to a sound state in which create breaks the counts |
| `LinkRoom.DirLinks` | kernel/sysfile.c:284-289 | a linked directory has fewer links than entries |
| `LinkRoom.MkdirNeverWraps` | kernel/sysfile.c:284-289 | so making a directory never wraps its parent's count: a directory is not long enough |
| `LinkRuns.StepKeeps` | kernel/sysfile.c:123-302 | from a sound state no call panics, and the state after it is sound if and only if no count wraps |
| `LinkRuns.RunKeeps` | kernel/sysfile.c:123-302 | in every run of create, link, unlink, open and close in linked directories in which no count wraps, the counts are right throughout and the panic on nlink below 1 is not reached |
| `LinkRuns.WrapBreaks` | kernel/sysfile.c:143-152 | the first call of a run that wraps a count leaves an unsound state |
| `LinkLaws.OneOrNone` | kernel/fs.c:551-575 | in a sound state a name in a directory is absent or finds exactly one inode |
| `LinkLaws.CallsAllowed` | kernel/sysfile.c:122-302 | in a sound state every call can be made, in any linked directory and of anything in use |
| `LinkLaws.UnlinkWorks` | kernel/sysfile.c:188-243 | unlink succeeds if and only if the name is there, is not "." or "..", and is not of a directory with something in it; then the name is gone, every other entry is as it was, and what it named has one link less or is free; otherwise nothing changes |
| `LinkLaws.CreateWorks` | kernel/sysfile.c:245-302 | create of a new name makes an inode if and only if one is free and there is room for the entry, and for a directory's own two; then looking up the name gives it, with one link, and every other entry is as it was; otherwise nothing changes |
| `LinkLaws.CreateFinds` | kernel/sysfile.c:256-263 | create of a name that is there opens what it names if and only if a file was asked for and a file or device is there |
| `LinkLaws.LinkWorks` | kernel/sysfile.c:122-170 | link succeeds if and only if the name is new, the inode is no directory and there is room; then looking up the name gives the inode, with one link more unless the count is at its largest; otherwise nothing changes |
| `LinkLaws.CreateUnlink` | kernel/sysfile.c:188-302 | create of a new name, close and unlink of it, with no count at its largest, give back every inode, with the same entries in use, for files, devices and directories |
| `LinkWrap.PanicReachable` | kernel/sysfile.c:188-216 | from the file system mkfs makes there is a run, with no directory longer than a directory can be, that ends in that panic |
| `LinkOps.Files.Dirlookup` | kernel/fs.c:551-574 | an entry of that name if and only if there is one |
| `LinkOps.Files.Dirlink` | kernel/fs.c:578-606 | the entry goes in the first free slot; failure exactly for a name that is there or a directory that cannot grow, and then nothing changes |
| `DirBytes.DirentBack` | kernel/fs.h:56-59 | an entry of 16 bytes is read back with its number as a ushort and the first 14 characters of its name |
| `DirBytes.Namecmp` | kernel/string.c:60-68 | strncmp over 14 characters finds the names equal if and only if what fits into an entry is equal |
| `DirBytes.EntriesPut` | kernel/fs.c:578-606 | writing an entry over an entry, or after the last one, changes that entry alone |
| `DirBytes.Dirlookup` | kernel/fs.c:551-574 | on the bytes of the directory, the offset of the first entry of that name if and only if there is one; the panic exactly for a size that is no whole number of entries |
| `DirBytes.WriteEntry` | kernel/fs.c:505-539 | an entry goes in whole or not at all, and not at all only at the end of a directory that cannot grow |
| `DirBytes.Dirlink` | kernel/fs.c:578-606 | on the bytes, the entry goes in the first free slot and no other file changes; refused exactly for a name that is there or a directory that cannot grow, and then no byte changes |
| `LinkOps.Files.Isdirempty` | kernel/sysfile.c:173-186 | true exactly if no slot after the first two is in use |
| `LinkOps.Files.Create` | kernel/sysfile.c:245-302 | the new inode and entry, or the existing file, or exactly when there is no inode, a name of the wrong kind or no room, failure and the file system as it was |
| `LinkOps.Files.Link` | kernel/sysfile.c:123-170 | succeeds exactly for a non-directory, an absent name and room, adding one to a 16-bit count; otherwise the file system as it was |
| `LinkOps.Files.Unlink` | kernel/sysfile.c:188-243 | the whole state after it: the entry is gone, the inode lost one link and is freed if that was the last and nobody has it open, all else is as it was; exactly when it fails and when it panics |
| `LinkOps.Files.Run` | kernel/sysfile.c:123-302 | in every run of calls the code answers and does what the calls of LinkRuns answer and do |
| `PageTree.WalkRole` | kernel/vm.c:85-103 | the table a walk reaches is the one whose role is the address's prefix |
| `PageTree.RoleWalk` | kernel/vm.c:85-103 | and the page with that role is the one every such walk reaches |
| `PageTree.SameTable` | kernel/vm.c:85-103 | no two pages play the same role |
| `PageTree.AttachKeeps` | kernel/vm.c:91-101 | adding an interior table changes no translation in any address space |
| `PageTree.LeafTranslate` | kernel/vm.c:160-165 | writing a last-level entry changes the translation of exactly one page of exactly one address space |
| `PageTree.SizeFits` | kernel/vm.c:232-256 | an address space with n user pages holds n different physical pages |
| `PageTree.NoneUnder` | kernel/vm.c:278-294 | nothing hangs below an invalid entry, so freewalk misses no page |
| `PageTree.OthersSized` | kernel/vm.c:177-340 | an operation on one address space leaves every other one's translations and size alone |
| `PteBits.RoundTrip` | kernel/riscv.h:370-392 | an entry packed into a 64-bit word and unpacked is that entry |
| `PteBits.EveryWord` | kernel/riscv.h:370-392 | and every word is the packing of some entry |
| `PteBits.HardwareBits` | kernel/riscv.h:373-377 | each flag and the page number are at the bits the hardware reads |
| `PteBits.StoredEntry` | kernel/riscv.h:387-392 | the address and the flags put into an entry are the ones taken out of it |
| `PageTree.Indices` | kernel/riscv.h:394-397 | the three 9-bit indices of an address are those the walk uses for its page |
| `PageTree.PutsEntry` | kernel/vm.c:159-165 | the word that mappages and walk store in a table is the entry: address, flags and the valid bit |
| `VirtualMemory.Vm.constructor` | kernel/kalloc.c:26-40 | freerange leaves every page of the range on the free list once |
| `VirtualMemory.Vm.Kalloc` | kernel/kalloc.c:68-82 | the head of the free list, handed out to nobody else; 0 only if the list is empty |
| `VirtualMemory.Vm.Kfree` | kernel/kalloc.c:46-63 | a handed-out page goes back once; every page stays free, in one address space, or handed out |
| `VirtualMemory.Vm.Walk` | kernel/vm.c:85-103 | finds or makes the last-level table and changes no translation, no user page and no other address space; 0 means not mapped, or out of memory |
| `VirtualMemory.Vm.Mappages` | kernel/vm.c:143-172 | maps exactly its range, or a prefix of it when memory runs out; the remap panic is unreachable |
| `VirtualMemory.Vm.Uvmunmap` | kernel/vm.c:177-199 | unmaps exactly its range and frees exactly its pages; its three panics are unreachable |
| `VirtualMemory.Vm.Uvmcreate` | kernel/vm.c:203-212 | a fresh address space that translates nothing |
| `VirtualMemory.Vm.Uvmalloc` | kernel/vm.c:232-256 | zeroed pages for exactly the new range, or every translation as before; it fails only with fewer than three free pages per page asked for |
| `VirtualMemory.Vm.Uvmdealloc` | kernel/vm.c:262-274 | gives back exactly the pages beyond the new size |
| `VirtualMemory.Vm.Uvmcopy` | kernel/vm.c:312-340 | every page of the child has the parent's flags and contents in a page of its own, or every translation is as before |
| `VirtualMemory.Vm.Freewalk` | kernel/vm.c:278-294 | every table of the subtree, and nothing else, goes back to the free list; the panic on a leaf is unreachable |
| `VirtualMemory.Vm.Uvmfree` | kernel/vm.c:298-304 | no page of the address space is left in use and every other address space is as it was |
| `VirtualMemory.Vm.ProcPagetable` | kernel/proc.c:176-206 | an address space with trampoline and trapframe, or on both failure paths no page kept |
| `VirtualMemory.Vm.ProcFreepagetable` | kernel/proc.c:210-216 | the whole address space goes, the trampoline and trapframe pages stay |
| `ProcMemory.Procs.AllocProc` | kernel/proc.c:109-205 | a process with no user memory, the trampoline at TRAMPOLINE to read and run and its own trapframe at TRAPFRAME to read and write; or none and every page as before, with at most five pages free |
| `ProcMemory.Procs.FreeProc` | kernel/proc.c:155-172 | a process's trapframe and address space go, every other process is as it was |
| `ProcMemory.Procs.Growproc` | kernel/proc.c:259-275 | the size changes by n, or not at all when n would go below zero or fewer than three free pages are left per page asked for; pages that stay keep translation and contents; new pages are zero and user code may read and write them |
| `ProcMemory.Procs.Fork` | kernel/proc.c:279-300 | the child's memory is a copy of what the parent had; failure, with nothing changed, only if at most five pages and three per page to copy are free |
| `ProcMemory.Procs.Execute` | kernel/proc.c:109-300 | in every sequence of spawn, sbrk, fork and exit the states passed through are all sound, with every page free, in one process or held, and every process with its own trapframe and the trampoline in place; each call does to memory, sizes and the other processes what it should, at most so many free pages go, with a reason for each failure; and whenever no process is left every page is back |
| `ProcMemory.AllBack` | kernel/kalloc.c:46-82 | with no process left every page that is not some other customer's is on the free list |
| `ExitWait.NextKeeps` | kernel/proc.c:279-474 | every lock-level step of fork, exit, wait, sleep, kill and the scheduler keeps locks, states, parents, pids and wake-ups consistent |
| `ExitWait.NoOrphans` | kernel/proc.c:330-435 | in every interleaving, whenever wait_lock is free no process has an exited parent, and no process sleeps in wait while it has a zombie child |
| `ExitWait.ReapedIsGone` | kernel/proc.c:391-425 | wait frees a slot only after its thread has switched to the scheduler for good and the scheduler has let go of its lock |
| `ExitWait.ReapedOnce` | kernel/proc.c:391-425 | in every interleaving wait returns only pids of processes that have exited, each at most once |
| `ExitWait.ZombieWakes` | kernel/proc.c:366-380 | the parent was woken before the child became a zombie and cannot have gone back to sleep |
| `ExitWait.HandOverWakes` | kernel/proc.c:330-341 | a zombie handed to init is either seen or init is still to be woken for it |
| `WaitAnswers.GivesUpRightly` | kernel/proc.c:390-435 | in every interleaving wait gives up only if its caller is killed or has no child, and goes to sleep only if it has one |
| `WaitAnswers.ScanDecides` | kernel/proc.c:426-433 | when the scan is over wait may give up if and only if its caller has no child or is killed, and may sleep if and only if it has a child |
| `WaitAnswers.ReturnsChild` | kernel/proc.c:402-424 | the pid wait returns is that of a zombie child of the caller, whose slot becomes free; a failed copy leaves such a child as it is |
| `WaitAnswers.SleepersHaveChildren` | kernel/proc.c:426-433 | in every state a process asleep in wait has a child |
| `WaitAnswers.ForkMakesChild` | kernel/proc.c:279-326 | what fork makes ready is a child of its caller |
| `LifeCycle.LivesRightly` | kernel/proc.c:279-616 | in every interleaving a process changes status, parent and its killed mark only by the steps that may, orphans going to init; and running, yielding, sleeping, exiting and being killed leave it in the status they should |
| `LifeCycle.PidsAreNew` | kernel/proc.c:92-103 | a new pid is one that no process has had before in the run |
| `NoDeadlock.NobodyIsStuck` | kernel/proc.c:279-592 | in every interleaving whoever holds the lock of a process can go on, the holder of wait_lock waits at most for such a lock, and every other running process at most for these |
| `SleepWakeup.NextKeeps` | kernel/proc.c:547-592 | every step keeps: while the condition is true, a thread is asleep or going to sleep only if a waker is still to come to it |
| `SleepWakeup.NoLostWakeup` | kernel/proc.c:547-592 | in every interleaving, with spurious wake-ups, when the lock is free and the condition is true nobody sleeps on the channel or is about to |
| `SleepWakeup.NobodyIsStuck` | kernel/proc.c:547-592 | who does not have to wait can go on; who holds its own lock need not wait, and who holds lk waits at most for the lock of a thread |
| `SleepLocks.MutualExclusion` | kernel/sleeplock.c:21-52 | in every interleaving at most one thread has a sleep lock, holdingsleep is right about who, and a free lock leaves nobody asleep on it |
| `VirtioQueue.SeenHead` | kernel/virtio_disk.c:310-313 | equal 16-bit indices mean no completion waits, and otherwise the slot read names the oldest one |
| `VirtioQueue.PublishRings` | kernel/virtio_disk.c:269-277 | publishing overwrites no slot the device has still to read |
| `VirtioQueue.CompleteRings` | kernel/virtio_disk.c:306-323 | completing overwrites no slot the driver has still to read |
| `VirtioDisk.Driver.Alloc3Desc` | kernel/virtio_disk.c:201-213 | three different free descriptors, or none taken exactly if fewer are free |
| `VirtioDisk.Driver.Submit` | kernel/virtio_disk.c:215-277 | the request becomes a chain of its own, formatted and published, every other request untouched; it has to wait exactly if two are in flight |
| `VirtioDisk.Driver.Complete` | kernel/virtio_disk.c:232-265 | a device that follows the descriptors, in any order of completion, moves exactly the request's block to or from exactly its buffer |
| `VirtioDisk.Driver.HandleOne` | kernel/virtio_disk.c:310-324 | the buffer released is that of the oldest completed request; the status panic is unreachable |
| `VirtioDisk.Driver.Intr` | kernel/virtio_disk.c:294-327 | every completed request is seen |
| `VirtioDisk.Driver.FreeChain` | kernel/virtio_disk.c:185-197 | exactly the chain's three descriptors become free; free_desc's panics are unreachable |
| `VirtioDisk.Driver.Collect` | kernel/virtio_disk.c:282-291 | when virtio_disk_rw returns, buffer and disk agree on the block |
| `VirtioDisk.Driver.Operate` | kernel/virtio_disk.c:156-327 | in every order of requests, fetches, completions, interrupts and returns, descriptors, rings and indices answer and do what DiskModel says; no panic is reached |
| `DiskModel.EffectOk` | kernel/virtio_disk.c:215-327 | every event keeps: at most two requests, for different blocks, buffers the disk's until seen, and buffer and medium equal once done |
| `DiskModel.StoreIsReplay` | kernel/virtio_disk.c:215-327 | in every run the medium is what the completed writes make of it, in the order of completion |
| `DiskModel.RequestIsCarriedOut` | kernel/virtio_disk.c:215-291 | whatever happens between submission and return, a write that returns is on the medium with what the buffer held, and a read returns what the medium held |
| `DiskModel.SubmitIsCarriedOut` | kernel/virtio_disk.c:215-291 | the same from the call on: a write puts on the medium what the buffer held at the call, a read gives what the medium held then and leaves it there |
| `Umalloc.ListIsCanonical` | user/umalloc.c:24-44 | the free list is exactly the maximal runs of units not handed out |
| `Umalloc.LiveBlocksDisjoint` | user/umalloc.c:63-90 | blocks handed out never overlap |
| `Umalloc.ScanStop` | user/umalloc.c:30-32 | the scan in free stops exactly at the block after which the freed one belongs |
| `Umalloc.Heap.FindPlace` | user/umalloc.c:29-32 | so it ends, from any starting block |
| `Umalloc.Heap.Free` | user/umalloc.c:24-44 | the block is handed out no more; the list stays circular, in address order and fully merged, and blocks still tile the arena |
| `Umalloc.Heap.Morecore` | user/umalloc.c:46-61 | what the system grants joins the arena and some block is then large enough |
| `Umalloc.Heap.Search` | user/umalloc.c:73-88 | the first large enough block after freep, if there is any |
| `Umalloc.Heap.Malloc` | user/umalloc.c:63-90 | a block of the needed size that overlaps nothing; 0 exactly when no block is large enough and the system grants no more, or grants another amount than is needed, which is said; the arena grows only when none is large enough |
| `Umalloc.RequestExact` | user/umalloc.c:52-54 | sbrk's int argument is what is needed if and only if that is less than 2^27 units |
| `Umalloc.RequestWraps` | user/umalloc.c:52-54 | the largest request asks sbrk for 16 bytes |
| `ShellGrammar.RoundTrip` | user/sh.c:328-447 | parsing the text of any command, printed with only the parentheses its precedence needs, gives that command back |
| `ShellGrammar.LineBack` | user/sh.c:345-360 | the same for a line inside parentheses or before the end, with what follows left over |
| `ShellGrammar.LinePlain` | user/sh.c:345-447 | and every command the parser returns is one that can be printed so: plain words, fewer than MAXARGS arguments |
| `ShellLayout.LineAgree` | user/sh.c:263-447 | texts with the same tokens and the same rest where the scanner stops are parsed alike, errors included |
| `ShellLayout.AnyLayout` | user/sh.c:263-447 | any text that spells the words and signs of a command with blanks, tabs, returns, newlines and vertical tabs before, between and after them, some between two words, is parsed to that command |
| `ShellLayout.LineAsRead` | user/sh.c:134-143 | so is the printed command with the newline that getcmd leaves on it |
| `ShellSyntax.ParsesExactly` | user/sh.c:328-447 | a text is accepted as a command if and only if its tokens are those of a tree of the grammar that means the command |
| `ShellSyntax.FailsExactly` | user/sh.c:328-447 | and refused if and only if they are those of no tree |
| `ShellSyntax.Unclosed` | user/sh.c:400-414 | any command in a parenthesis that is not closed is refused for that |
| `ShellSyntax.Unopened` | user/sh.c:328-343 | what follows a parenthesis that was not opened is left over |
| `ShellSyntax.NoFile` | user/sh.c:375-398 | a redirection without a file is refused for that |
| `ShellSyntax.Misplaced` | user/sh.c:429-443 | a parenthesis after a word is a syntax error |
| `ShellSyntax.TooMany` | user/sh.c:429-443 | MAXARGS words, all of them typeable, are one too many |
| `Shell.NextToken` | user/sh.c:266-309 | the scanner returns the grammar's token, its word as a maximal run of plain characters |
| `Shell.Parseredirs` | user/sh.c:375-398 | the loop reads exactly the grammar's redirections |
| `Shell.Parseargs` | user/sh.c:429-443 | the loop reads exactly the grammar's words and redirections, with its three panics |
| `Shell.Parseexec` | user/sh.c:416-447 | agrees with the grammar on every input, including the errors |
| `Shell.Parseblock` | user/sh.c:400-414 | agrees with the grammar on every input, including the errors |
| `Shell.Parsepipe` | user/sh.c:362-373 | agrees with the grammar on every input, including the errors |
| `Shell.Parseline` | user/sh.c:345-360 | agrees with the grammar on every input and ends |
| `Shell.Nulterminate` | user/sh.c:450-494 | a NUL at the end of every word and no other change |
| `Shell.WordsAreCut` | user/sh.c:450-494 | so the string at the start of each word is that word: no word is cut by another's NUL |
| `Shell.Parsecmd` | user/sh.c:328-343 | the whole line or an error, and every word a string of its own |
| `Pipe.Ring.Write` | kernel/pipe.c:82-98 | the loop, byte by byte with 32-bit counters, ends where PipeModel says and for the reason it says: no reader, killed on the way, full, a failed copy, or done |
| `Pipe.Ring.Read` | kernel/pipe.c:112-126 | sleeps exactly when the pipe is empty and a writer is left; otherwise the oldest bytes in order, as many as asked for and there; a failed copy loses one |
| `Pipe.Carry` | kernel/pipe.c:59-130 | in every order of stretches of writing and reading, resumed or new, and of closes, the ring answers and holds what the pipe of PipeModel does |
| `PipeModel.InOrder` | kernel/pipe.c:76-130 | in every run what went in is what the writers copied, in order, what came out is its beginning, and at most PIPESIZE bytes are inside |
| `PipeModel.Fifo` | kernel/pipe.c:76-130 | if no copy to user memory fails, what the readers got is the beginning of what the writers copied in |
| `PipeModel.EndIsTheEnd` | kernel/pipe.c:112-126 | a reader told of the end, at any point of a run, has been given all there will ever be |
| `PipeModel.WriterStops` | kernel/pipe.c:82-98 | a writer copies on for as long as it may; it returns -1 exactly if nobody can read, when not a byte is copied, or it is killed before the end, and sleeps exactly at a full pipe otherwise |
| `PipeModel.ReaderStops` | kernel/pipe.c:112-126 | a reader sleeps if and only if the pipe is empty and somebody can write; otherwise it gets the oldest bytes, as many as it asks for and there are, or those before a copy that fails |
| `PipeModel.ShutCloses` | kernel/pipe.c:58-74 | closing an end closes that end alone and tells whether both are closed |
| `PipeModel.RecordsWhole` | kernel/pipe.c:76-130 | if k divides PIPESIZE, in every run of senders and receivers of k bytes the pipe answers as a queue of PIPESIZE / k records: whole, in order, or wait |
| `PipeModel.RecordSplits` | kernel/pipe.c:86-126 | for every other k, once as many records are in as fit whole the next is split after PIPESIZE mod k bytes, and readers of k bytes then get whole records and one short read |
| `PipeWaits.WritersSleepOnFull` | kernel/pipe.c:86-88 | in every order of stretches, closes and kills a writer sleeps only on a full pipe that can be read |
| `PipeWaits.NoReaderLeftAsleep` | kernel/pipe.c:82-126 | no reader sleeps over bytes anywhere in a run if and only if no writer, while a reader sleeps, is about to be killed past its first byte and before its last with room for the bytes between |
| `PipeWaits.NextWriterWakes` | kernel/pipe.c:62-98 | the next stretch of writing that is not cut off, or the end of the last writer, wakes every reader |
| `PipeWaits.WriterKeepsPlace` | kernel/pipe.c:82-98 | a writer that slept goes on with the byte after the last it put in, and no step of another moves it |
| `PipeWaits.KilledDoNotSleep` | kernel/pipe.c:112-119 | kill leaves nobody asleep on the pipe, and a reader that finds itself killed gives up |
| `PipeWaits.LostWakeupRun` | kernel/pipe.c:83-86 | a run in which a reader is left asleep over a byte |
| `Grep.Match` | user/grep.c:72-82 | true exactly if the pattern matches the text |
| `Grep.Matchhere` | user/grep.c:85-96 | true exactly if a prefix of the text is in the pattern's language, all of it for a final $ |
| `Grep.Matchstar` | user/grep.c:99-106 | true exactly if some number of fitting characters, followed by the rest of the pattern, is |
| `Grep.MatchesMeans` | user/grep.c:72-106 | a match is a substring in the language of literals, dots and starred items, at the start for ^ and at the end for $ |

## Left out

- FileSys.FileSystem.Readi: a copy to user memory succeeds or fails for a whole run of bytes in one block, since a partly failed copy can leave a cached block half changed.
- FileSys.FileSystem.Writei: the same for copies from user memory.
- LogCode.Log.EndOp: the commit it runs is for a moment when no thread has a buffer locked; the machine in Storage has the interleavings with other threads' buffers.
- LogCode.Log.CommitTransaction: as for EndOp.
- LinkOps.Files.Create: paths are not resolved, the parent directory is given, and it is a linked one; names are not cut at 14 bytes.
- LinkOps.Files.Link: as for Create; the test for different devices cannot fail with one device.
- FileCrash.FileWrite: one thread writes; each block it logs goes through the cache once, with the contents it ends up with, where the code may log it several times in the operation.
- Umalloc.Heap.Malloc: when sbrk grants another amount than is needed, what the code then does with memory it was not given is not followed.
- VirtioDisk.Driver.Complete: every request succeeds; a device error is the panic in the interrupt handler.
- Shell.Parseexec: the exec node that redirections wrap is completed before it is wrapped, not updated inside.
- PipeWaits.NoReaderLeftAsleep: a stretch runs undivided and sleep gives up the lock in the same step; that this may be assumed is SleepWakeup.
- WaitAnswers.ScanDecides: a process killed before wait looks and one killed between that and its sleep are not told apart, so a killed process may still go to sleep.
- ExitWait.NextKeeps: the exit status, open files and current directory of an exiting process are not modelled.
- In umalloc, the single loop of malloc is written as a search that is made again after more core has been had.
- Path names (skipelem, namex), the in-memory inode table and the open-file table: nothing proved here depends on them.
- Spin locks, interrupts, traps, system-call argument fetching, exec, the console, the UART, mkfs and the assembly code.
- copyin, copyout and copyinstr, walkaddr and uvmclear, and the kernel's own page table.
- The shell's runcmd, grep's reading of files, and the other user programs.
