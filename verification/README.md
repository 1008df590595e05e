# xv6: what the kernel and its user programs keep

A model of the xv6 RISC-V kernel's storage stack, memory, processes and pipes, and of two
of its user programs, the shell parser and grep. Code that changes state is modelled as
classes and methods that do the same steps; protocols between processes are state
machines in which every acquire, release, switch or assignment under a lock is one step
of an arbitrary interleaving; parsers and matchers are proved against recursive
specifications. A `panic` is an outcome (`Panic`, `None`) or, where a caller must never
reach it, a precondition that every caller here proves.

The modules, bottom up:

- `Ring`, `Lru`, `BufferCache`: the buffer cache. It is invisible: a read through it is a
  read of one logical disk.
- `RedoLog`, `LogDevice`, `GroupCommit`, `LogSpace`: the log. `RedoLog` is the mathematics
  of commit, recovery and crashes between any two disk writes; `LogDevice` is the code of
  log.c on top of the buffer cache, tied to it by the history of disks it goes through;
  `GroupCommit`, `LogSpace` and `LogProgress` are begin_op, end_op and log_write as a state
  machine; `LogRuns` is any sequence of reads, updates and commits against a plain disk.
- `Blocks`, `Fs`, `Trunc`, `FileBytes`, `FileWrite`, `FileCalls`, `TightBudget`: block
  ownership, files as byte sequences, and the block budget of a transaction. `DiskLayout` is
  how all this lies on the disk, `FsRuns` are transactions of file operations, and `FsCrash`
  runs them through the log and crashes it.
- `Paths`, `Directory`, `Namex`, `Links`, `LinkCalls`: path elements, directories as finite
  maps over their bytes, path lookup, and link counts.
- `PageTable`, `Vm`, `PageFree`, `UserCopy`: Sv39 page tables (section 4.4 of the RISC-V
  Privileged Architecture) as a refinement of a flat map, and copies through them.
- `UserMemory`, `Uvm`, `ProcTable`, `PageOwners`, `ProcImages`, `ExecImages`,
  `Conservation`: physical pages as a partition, through fork, sbrk, exec and exit;
  `PageSharing`: kalloc and kfree by many processes at once.
- `Ownership`, `SleepWakeup`, `SleepLock`, `SleepTurns`: sleep and wakeup for any lock and
  condition, sleep locks as one use of them, and why a process may be taken to do all it does
  under a lock in one step. `PipeTurns` and `LogTurns` apply this to the pipes and the log,
  which are modelled in such steps. `SleepProgress` and `SleepLockRuns` are what they achieve.
- `Processes`, `ProcessLocks`, `ExitWait`, `Reaping`: fork, exit, wait and the scheduler on
  any number of CPUs, and what every state of every run keeps; `ProcessRuns` and `LifeCycle`:
  that nobody waits for ever, and that each call gets done.
- `PipeRing`, `PipeProtocol`, `PipeProgress`: the pipe's ring buffer, its readers and writers,
  and that what is written arrives.
- `FreeList`, `Umalloc`: the Kernighan and Ritchie allocator of the user library.
- `Shell`, `ShellRoundTrip`, `ShellCode`, `ShellTokens`, `ShellWords`, `ShellNormal`,
  `ShellGrammar`: the shell's parser. `Shell` is the recursive specification, `ShellCode` the
  loops of sh.c, `ShellGrammar` the grammar they accept.
- `Regex`, `Grep`: the pattern matcher and the line buffering of grep.

Some properties turn out to be false of the code as it stands. Each comes with an input
that breaks it and the exact condition under which it holds:

- Reservation does not exclude "too big a transaction". mkfs makes the log LOGSIZE blocks
  long, one of which is the header, so operations that stay within their budgets can still
  panic. If every log_write comes with budget left, as writei's do, they cannot exactly when
  the log is larger than what they can log. If an operation may log its own blocks again
  after it has used up its budget, no log size helps at the shipped LOGSIZE, since log_write
  looks for a full log before it looks for the block (`LogSpace.PanicExactly`,
  `LogSpace.ShippedLogPanics`, `LogSpace.LastBlockFits`). Nor is a larger log a remedy by
  itself: with NBUF = LOGSIZE a full log leaves no buffer (`LogDevice.FullLogStarves`).
- A reader can stay asleep on a pipe that has bytes in it. This happens exactly when a
  writer that was killed returns after putting bytes, since it leaves without a wakeup
  (`PipeProtocol.BlockingKept`, `PipeProtocol.PipeBlocking`, `PipeProtocol.KillDeserts`).
- A write whose source cannot be read to the end can change bytes behind those it reports:
  what was copied before the failure stays in a buffer that is not logged. The offset, the
  number of readable bytes and the size of the file tell: it is as reported unless the
  readable bytes end inside a chunk that starts inside the file, and then the bytes of that
  chunk show (`FileWrite.Writei`, `FileCalls.Filewrite`, `FileWrite.FailedWriteShows`).
- Linking or creating inside a directory that was removed breaks link counts. The exact
  conditions are in `LinkCalls.AddLinkExactly` and `LinkCalls.MakeDirExactly`, for whole
  calls in `LinkCalls.CallExactly`; `LinkCalls.RemovedDirBreaks` is a run that does it.
- grep does not print every matching line: it stops at the first line that does not fit
  its buffer or has a NUL in it, and never prints an unterminated last line. Its output is
  still a function of the input alone, and all matching lines exactly when each fits
  (`Grep.Grep`, `Grep.AllFitExactly`, `Grep.LineLost`).

Sizes such as the number of buffers, processes, CPUs, locks and log blocks are parameters;
BSIZE, NDIRECT, DIRSIZ, PIPESIZE, MAXOPBLOCKS and the page-table geometry are the source's
constants.

## Model

| member | source | states |
|---|---|---|
| `Ring.Covers` | kernel/bio.c:37-53 | a ring of n distinct links below n holds every buffer, so no buffer is ever lost from the cache |
| `Ring.Unlinked` | kernel/bio.c:128-129 | taking a buffer out of the doubly linked ring leaves a ring of exactly the others, in both directions |
| `Ring.Inserted` | kernel/bio.c:130-133 | inserting a buffer behind the head of a ring that lacks it gives a ring, in both directions |
| `Ring.MovedToFront` | kernel/bio.c:126-134 | the six pointer assignments of brelse turn the ring into the same ring with that buffer first |
| `Lru.InitLinks` | kernel/bio.c:43-52 | the loop of binit builds a ring that lists the buffers from the last to the first |
| `Lru.ReleaseOrder` | kernel/bio.c:124-134 | a release keeps the ring in order of last release |
| `Lru.MoveLinks` | kernel/bio.c:124-134 | the link surgery keeps the ring a permutation in order of last release |
| `Lru.Lru.ToFront` | kernel/bio.c:124-134 | a buffer that becomes unused is first in the ring; all others keep their order |
| `BufferCache.AtMostOneBuffer` | kernel/bio.c:59-89 | two buffers of a real device never hold the same block |
| `BufferCache.DirtyInUse` | kernel/bio.c:117-151 | a block whose latest contents are not on the disk has a buffer that cannot be recycled |
| `BufferCache.AssignedKeeps` | kernel/bio.c:78-87 | recycling an unused buffer keeps uniqueness and loses no contents |
| `BufferCache.ModifiedKeeps` | kernel/bio.c:93-103 | changing a held buffer changes the logical disk there and nowhere else |
| `BufferCache.WrittenKeeps` | kernel/bio.c:107-112 | writing a buffer out makes the disk agree with the logical disk on that block |
| `BufferCache.Cache.constructor` | kernel/bio.c:37-53 | binit: an empty cache over a disk, whose logical contents are the disk's |
| `BufferCache.Cache.FindCached` | kernel/bio.c:66-73 | the first loop of bget finds the block's only buffer, or there is none |
| `BufferCache.Cache.FindUnused` | kernel/bio.c:77-86 | the second loop finds the least recently released unused buffer, or none is unused |
| `BufferCache.Cache.Bget` | kernel/bio.c:59-89 | bget returns the cached buffer, else recycles the least recently used one; it fails exactly when the block is not cached and every buffer is in use |
| `BufferCache.Cache.Bread` | kernel/bio.c:93-103 | the buffer returned holds the block's latest logical contents; logical disk, other buffers and pins are unchanged; fails exactly when no buffer is available |
| `BufferCache.Cache.Bwrite` | kernel/bio.c:107-112 | exactly one disk block changes, in one step of the disk's history |
| `BufferCache.Cache.Brelse` | kernel/bio.c:117-137 | one reference goes; the ring changes only when it was the last, and then only this buffer moves |
| `BufferCache.Cache.Bpin` | kernel/bio.c:140-144 | a pin keeps the buffer in the cache and changes no contents |
| `BufferCache.Cache.Bunpin` | kernel/bio.c:147-151 | takes back one pin and changes no contents |
| `RedoLog.InstallIsUpdate` | kernel/log.c:69-83 | copying the log area home has exactly the transaction's effect on the home blocks |
| `RedoLog.Reinstalled` | kernel/log.c:69-83 | installing again over a partly installed disk ends in the same disk |
| `RedoLog.RecoveryStable` | kernel/log.c:117-123 | every disk that recovery goes through recovers to the same home blocks |
| `RedoLog.CrashesStable` | kernel/log.c:117-123 | any number of crashes at any points of repeated recoveries does not change the outcome |
| `RedoLog.CommittedIsNew` | kernel/log.c:194-203 | once the header is on disk, recovery gives all home blocks their new contents |
| `RedoLog.UncommittedIsOld` | kernel/log.c:179-191 | before that, with any prefix of the log written, recovery gives all home blocks their old contents |
| `RedoLog.CommitPoint` | kernel/log.c:194-203 | after each of the 2n+2 writes of a commit: all old up to the header write, all new from it on |
| `RedoLog.CrashAtomic` | kernel/log.c:69-123 | all old or all new, new exactly when the header write landed, for every crash point of commit and every sequence of later crashes in recovery |
| `RedoLog.CommitTraceAt` | kernel/log.c:194-203 | the disk history of a commit consists of exactly those crash states, in order |
| `RedoLog.RecoveryTraceAt` | kernel/log.c:117-123 | the disk history of a recovery consists of exactly the states a crash in it can leave |
| `LogDevice.CommitHistory` | kernel/log.c:179-203 | every disk in the history of the commit code recovers to the old contents before the header write and to what clients see after it |
| `LogDevice.CommitEnds` | kernel/log.c:194-203 | after commit the home blocks are what clients see and the log is empty |
| `LogDevice.Log.WriteLog` | kernel/log.c:179-191 | write_log through the cache: log block k+1 gets the current contents of logged block k, one disk write each |
| `LogDevice.Log.WriteHead` | kernel/log.c:103-114 | write_head: one disk write makes the header list exactly the logged blocks |
| `LogDevice.Log.InstallTrans` | kernel/log.c:69-83 | install_trans: home blocks get the logged contents, one disk write each; each loses its one pin and is dirty no more, outside recovery |
| `LogDevice.Log.Commit` | kernel/log.c:194-203 | commit leaves the disk equal to the clients' view, an empty log, nothing dirty and nothing pinned; every disk on the way recovers to the old view or the new one; a buffer neither open nor pinned is all it needs |
| `LogDevice.Log.ReadHead` | kernel/log.c:87-97 | read_head: the in-memory header becomes the list on disk, nothing else changes |
| `LogDevice.Log.RecoverFromLog` | kernel/log.c:117-123 | recover_from_log ends in the recovered disk, which is what clients then see, with an empty log, nothing dirty and nothing pinned, and goes through exactly the recovery states |
| `LogDevice.Log.FindLogged` | kernel/log.c:225-228 | the absorption loop finds the block's index in the header, or it is not there |
| `LogDevice.Log.LogWrite` | kernel/log.c:215-235 | log_write: absorbs or appends the block and pins its buffer exactly once; afterwards every block that differs from the disk is listed; panics exactly on a full log, even for a block that would be absorbed, or outside an operation |
| `LogDevice.Log.Update` | kernel/log.c:215-235 | read, change, log_write, release: clients see the new block at once, the disk does not change, no reference is left, and the log is as fit for the next call as before |
| `LogDevice.Log.Look` | kernel/bio.c:93-137 | read and release: returns the block's latest logical contents and changes nothing that clients or the log can see |
| `LogDevice.SpareExactly` | kernel/bio.c:77-88 | some buffer is unused if and only if fewer than all of them are open or pinned by the log |
| `LogDevice.FullLogStarves` | kernel/param.h:10-11 | with as many blocks logged as there are buffers every buffer is pinned, so with NBUF = LOGSIZE a log that can take LOGSIZE blocks leaves commit without a buffer |
| `LogRuns.Session` | kernel/log.c:194-235 | any sequence of reads, updates and commits, from any ready state: reads return what they would on a plain disk; outside the log the disk holds the last commit until the next; every disk of the run recovers to the last commit whose header had been written when it was; it panics exactly when an update meets a full log. Buffers for every block the log can take and one more suffice |
| `LogRuns.RecoversCommit` | kernel/log.c:194-203 | a commit of n blocks adds n disks that recover to the commit before and then n + 2 that recover to the new one, or none if n is 0 |
| `LogRuns.StaysCommitted` | kernel/log.c:194-203 | durability over runs: every disk written after some operations have run, whatever comes next, recovers to their last commit or a later one |
| `LogRuns.RunMeans` | kernel/log.c:194-235 | what a run on the plain disk is, without it: every read returns what was last written there, each commit keeps the disk as it is then, and the run panics exactly when a write meets a log with no room for the blocks changed since the last commit |
| `LogRuns.Boot` | kernel/log.c:55-65 | boot and recovery establish what such a run starts from |
| `DiskLayout.LoggedSuffice` | kernel/fs.h:8-51 | with inodes, bitmap and data laid out on the disk as 32-bit words: if all that changed lies in logged blocks and those are on the disk, the disk holds the whole new file system |
| `DiskLayout.Unambiguous` | kernel/fs.h:8-51 | a disk holds only one file system: any two with exact ownership that lie on it have the same free blocks, inodes, block pointers and file contents |
| `FsRuns.Apply` | kernel/fs.c:426-539 | a writei that copies nothing in vain, or an itrunc: ownership stays exact, no file has holes, the inodes in memory are those on the disk, other files keep their bytes, every block changed is in the log, and a write is whole unless the disk is full |
| `FsRuns.Group` | kernel/fs.c:426-539 | the same for any number of such calls between two commits |
| `FsRuns.VainUncovered` | kernel/fs.c:520-525 | a write that does copy in vain need not be covered: two bytes at the start of a file, the second unreadable, change a block that is not logged |
| `FsCrash.CommitsKeep` | kernel/log.c:194-235 | over any run of transactions, reads and log_writes in any order, each commit leaves on the disk the file system of its transaction, with exact ownership |
| `FsCrash.Flushed` | kernel/log.c:215-235 | writing every logged block once with its contents at the end is such a transaction |
| `FsCrash.FilesSurvive` | kernel/log.c:69-123 | every disk of such a run recovers, through any number of crashes in recovery, to one that holds the file system after the last commit whose header was written |
| `FsCrash.Serve` | kernel/log.c:69-235 | the same of the code: a run of transactions through the log and the buffer cache, with a crash at any of its disk writes |
| `GroupCommit.InvKept` | kernel/log.c:127-175 | every step of begin_op, log_write, end_op, commit or a crash keeps the invariant of the log's bookkeeping |
| `GroupCommit.RunKeeps` | kernel/log.c:127-175 | so every reachable state has it |
| `GroupCommit.NeverSplit` | kernel/log.c:127-175 | in every run, all writes of one operation belong to one transaction and reach the disk together |
| `GroupCommit.CommitsAlone` | kernel/log.c:127-175 | in every run, while a commit is going on no operation runs; whoever sleeps in begin_op has a commit to wait for, or a running operation and no room |
| `GroupCommit.SealedForever` | kernel/log.c:194-203 | durable writes stay durable and their operations stay over, through any further run |
| `GroupCommit.AllOrNothing` | kernel/log.c:127-203 | whatever is durable at some point of a run stays, and no later write belongs to an operation that was durable, crashes included |
| `LogProgress.NothingLost` | kernel/log.c:215-235 | without a crash the history grows by exactly the writes asked for, in order |
| `LogProgress.EndedIsDurable` | kernel/log.c:147-203 | in every run: whenever no operation and no commit is under way, everything written since any earlier moment, if no crash came in between, is on the disk |
| `LogProgress.Drains` | kernel/log.c:147-203 | from every state of a run, ending the operations under way and letting the commit finish puts every write on the disk and leaves nobody asleep |
| `LogProgress.Operation` | kernel/log.c:127-235 | at rest a process that begins, writes what fits the log and ends has all its writes on the disk after the commit this starts |
| `LogProgress.GetsThrough` | kernel/log.c:127-235 | so from every state of every run every process can get an operation onto the disk, behind all that was written before |
| `LogSpace.RunReserves` | kernel/log.c:127-142 | in every run within budget, of either kind, logged blocks plus unspent budgets of running operations never exceed the most that operations can log (at most LOGSIZE); with a log that is large enough for the kind it does not panic |
| `LogSpace.SmallLogPanics` | kernel/log.c:220-221 | with a log no larger than that most, some run in which every log_write comes with budget left panics, for any LOGSIZE, MAXOPBLOCKS and number of processes |
| `LogSpace.AgainPanics` | kernel/log.c:220-228 | with a log that this most fills, some run panics in which an operation logs a block of its own again: the test for a full log comes before absorption |
| `LogSpace.PanicExactly` | kernel/log.c:215-235 | which runs within budget can panic, without any assumption on the constants: if every log_write comes with budget left, if and only if something can be logged and the log is no larger than the most; if operations log at most MAXOPBLOCKS distinct blocks but may log them again, also if the most is LOGSIZE or fills the log |
| `LogSpace.ShippedLogPanics` | mkfs/mkfs.c:25 | with LOGSIZE = 30, MAXOPBLOCKS = 10 and 64 processes: such a run exists if and only if the log has at most 30 blocks, as mkfs makes it, or own blocks may be logged again |
| `LogSpace.SpentIsLogged` | kernel/log.c:215-235 | whatever other processes do meanwhile, the budget an operation has spent is the set of blocks it has logged |
| `LogSpace.LastBlockFits` | kernel/log.c:215-235 | an operation that logs fewer than MAXOPBLOCKS blocks and then one more, as writei does with the inode block, makes every log_write with budget left, in any interleaving |
| `Blocks.GrantedOwned` | kernel/fs.c:383-421 | giving a free block to a vacant pointer of a file keeps block ownership exact and changes that pointer only |
| `Fs.Fs.Balloc` | kernel/fs.c:66-88 | takes the first free block, zeroed; returns 0 exactly when every bit is set, and then changes nothing |
| `Fs.Fs.Fill` | kernel/fs.c:383-421 | one pointer: kept if set, else a fresh zeroed block, or 0 with nothing changed when the disk is full |
| `Fs.Fs.Bmap` | kernel/fs.c:383-421 | bmap keeps: set bits are exactly metadata and reachable blocks, no block has two owners; a failure after the indirect block was allocated included. It returns 0 only on a full disk, never changes other pointers, the indirect one only for a block behind it, and logs every block it changes |
| `Trunc.Itrunc` | kernel/fs.c:426-453 | frees exactly the file's blocks, keeps ownership exact, and never frees a free block; other files' inodes and blocks are unchanged; every block changed is logged |
| `Trunc.FreeDirect` | kernel/fs.c:432-437 | the first loop clears exactly the direct pointers |
| `Trunc.FreeIndirect` | kernel/fs.c:439-449 | the second part clears exactly the indirect block and all it points to |
| `FileBytes.Readi` | kernel/fs.c:472-496 | returns exactly the slice of the file's bytes clipped to its size, nothing past the end or on 32-bit overflow, and changes nothing |
| `FileBytes.PutChunkByte` | kernel/fs.c:520-526 | storing a chunk in one block changes exactly those bytes of exactly that file |
| `FileWrite.WrittenFile` | kernel/fs.c:506-539 | what the write loop leaves is the old file with the range overwritten, possibly longer, without holes |
| `FileWrite.OtherFile` | kernel/fs.c:506-539 | every other file keeps its size and its bytes |
| `FileWrite.Budget` | kernel/fs.c:506-539 | a write of n bytes logs at most (blocks touched) + (those that can be new) + 3 distinct blocks, hence at most MAXOPBLOCKS for three blocks' worth of bytes, and fewer before the inode's |
| `FileWrite.Writei` | kernel/fs.c:506-539 | -1 exactly for an offset past the end, 32-bit overflow or a file too large, then nothing changes; else, unless the readable bytes end inside a chunk that starts inside the file, exactly the bytes reported are replaced; in that case it reports those before the chunk, and the readable bytes of the chunk show all the same. No holes, other files and block ownership kept; a short write happens only on a full disk or an unreadable source; every block changed is logged, but for that chunk's, and the inode's comes last, after fewer than MAXOPBLOCKS others if n is at most three blocks |
| `FileWrite.SmudgedFile` | kernel/fs.c:520-525 | bytes copied in vain show in the file from the failing chunk on, as far as it goes, and in no other file; the block is not logged |
| `FileWrite.FailedWriteShows` | kernel/fs.c:520-525 | such a write: two bytes at the start of any file, the second unreadable; it reports nothing written, readers see the first, and its block is not logged |
| `FileCalls.WritePiece` | kernel/file.c:160-169 | one transaction of filewrite: what it logs before the inode block is fewer than MAXOPBLOCKS blocks; with its source readable it is short only on a full disk, behind the end of the file |
| `FileCalls.NextPiece` | kernel/file.c:154-176 | a piece of a write is torn if and only if the write is and its readable bytes end in that piece |
| `FileCalls.Filewrite` | kernel/file.c:135-181 | the chunked write equals one write of all bytes and stops at the first short chunk; with its source readable only for want of a free block or at the largest file size; it stores exactly the bytes reported unless the readable ones end, within their piece, in a chunk that starts inside the file, and then stops at that chunk and shows its bytes, as writei does; no transaction of it logs MAXOPBLOCKS blocks before the inode's |
| `TightBudget.TenBlocks` | kernel/file.c:148-175 | the bound is reached by the code: on every disk with four free blocks, no two free ones in the same bitmap block, writing a whole chunk behind a file that ends inside its last direct block succeeds and logs exactly MAXOPBLOCKS blocks |
| `TightBudget.TightDisk` | kernel/fs.c:66-88 | such a disk exists, with exact block ownership |
| `Paths.SkipSlash` | kernel/fs.c:623-645 | leading slashes do not change the elements of a path |
| `Paths.TakeElement` | kernel/fs.c:623-645 | a non-empty run without slashes is the first element |
| `Paths.JoinedElements` | kernel/fs.c:608-645 | taking a path apart undoes joining names with any number of slashes between them |
| `Paths.SkipElem` | kernel/fs.c:623-645 | yields the next non-empty slash-separated element, cut to DIRSIZ, and the position of the rest; stops exactly when there is none |
| `Directory.NameCmp` | kernel/fs.c:544-547 | namecmp on a 14-byte field says whether the name cut to DIRSIZ equals the stored name |
| `Directory.FieldName` | kernel/string.c:71-81 | a name stored with strncpy reads back as the name cut to DIRSIZ |
| `Directory.ViewExact` | kernel/fs.c:552-575 | the map of a directory holds exactly the names and inode numbers of its used entries |
| `Directory.LinkedView` | kernel/fs.c:580-606 | writing an entry into an unused slot inserts it into the map and keeps names distinct |
| `Directory.ClearedView` | kernel/sysfile.c:222-224 | zeroing an entry removes its name from the map |
| `Directory.DirLookup` | kernel/fs.c:552-575 | dirlookup over the directory's bytes is a lookup in that map, and gives the entry's offset |
| `Directory.FindSlot` | kernel/fs.c:592-598 | the search ends at the first unused slot, or at the end of the file if all are used |
| `Directory.DirLink` | kernel/fs.c:580-606 | dirlink inserts into the map, or fails and leaves the bytes as they were; it fails only when the name is there, or when every slot is used, the last block is full and the disk is full or the directory has the largest size; other files are unchanged, and every block changed is logged |
| `Directory.ClearEntry` | kernel/sysfile.c:222-224 | the write of unlink cannot fail, and removes exactly that name; every block changed is logged |
| `Namex.Namex` | kernel/fs.c:652-684 | namex equals folding the lookup along the path's elements from the root or the current directory; for the parent variant, all but the last, which it returns |
| `Namex.ResolveExactly` | kernel/fs.c:652-684 | a path names an inode if and only if there is a chain of inodes, each but the last a directory in which the next component names the next, that leads to it |
| `Namex.ParentExactly` | kernel/fs.c:652-684 | its parent is the directory that all components but the last lead to, if and only if there is one |
| `Links.AddLinkSound` | kernel/sysfile.c:124-170 | a new name in a linked directory keeps every nlink equal to the number of entries naming the inode in linked directories, ".." counted and "." not |
| `Links.MakeDirSound` | kernel/sysfile.c:246-302 | so does a new directory in a linked directory |
| `Links.EmptyNamedOnce` | kernel/sysfile.c:174-186 | an empty directory is named by exactly one entry |
| `Links.DropFacts` | kernel/sysfile.c:189-243 | what unlink removes has nlink >= 1, and an empty directory has nlink 1 and ".." its parent, so the panic is unreachable |
| `Links.DropSound` | kernel/sysfile.c:189-243 | unlink keeps the counts exact |
| `Links.FreeNode` | kernel/fs.c:337-362 | freeing an inode with nlink 0 keeps the counts exact |
| `LinkCalls.AddLinkExactly` | kernel/sysfile.c:124-170 | a new link keeps the counts exact if and only if the directory is still linked |
| `LinkCalls.MakeDirExactly` | kernel/sysfile.c:246-302 | a new directory keeps tree and counts if and only if its parent is still linked; the counts alone also when the parent was removed, the inode its ".." names is free, and the new directory does not take that inode |
| `LinkCalls.CreateExactly` | kernel/sysfile.c:246-302 | the same for every kind of inode that create makes |
| `LinkCalls.CallExactly` | kernel/sysfile.c:124-302 | the same for every call of sys_link, sys_unlink, create and the last iput; and unlink never meets a count below 1 |
| `LinkCalls.RunSound` | kernel/sysfile.c:124-302 | in every run of such calls that puts names only into linked directories, every count stays exact and directories form a tree |
| `LinkCalls.RemovedDirBreaks` | kernel/sysfile.c:246-302 | a reachable state with exact counts in which create, of a file or a directory, in a removed directory breaks a count |
| `LinkCalls.OrphanSurvives` | kernel/sysfile.c:246-302 | a reachable state in which a new directory in a removed one keeps the counts, though not the tree, and breaks them when it takes the inode number of the parent |
| `LinkCalls.Files.Link` | kernel/sysfile.c:124-170 | sys_link succeeds exactly when the old path is no directory, the new parent exists, lacks the name and can grow; then the directory has the name, the inode one link more, and all else is as before; a failure rolls the count back to the very same state; tree and counts stay exact iff the directory is linked |
| `LinkCalls.Files.Unlink` | kernel/sysfile.c:189-243 | sys_unlink succeeds exactly on a plain name that the directory has, of a file or of a directory without other entries; then the directory loses exactly this name, the inode a link, the directory one if it was a directory, and the inode goes with its last link and reference; all else is as before, and counts stay exact |
| `LinkCalls.Files.Create` | kernel/sysfile.c:246-302 | create's exact success condition; what it makes: the name, a fresh inode with one link, for a directory with its two entries and a link to the parent, and nothing else; every failure, after any of the three dirlink calls, restores the very same state; tree and counts stay exact iff the parent is linked |
| `LinkCalls.LinkUnlink` | kernel/sysfile.c:124-243 | a link that succeeds can be unlinked, and that restores the very same state |
| `LinkCalls.CreateUnlink` | kernel/sysfile.c:189-302 | so can a file or directory just created, if no other reference is left |
| `FreeList.InsertOrdered` | user/umalloc.c:25-44 | inserting with merging keeps the free list address-ordered, disjoint and fully coalesced |
| `FreeList.InsertFree` | user/umalloc.c:25-44 | and adds exactly the block's units to the free ones |
| `FreeList.CutOrdered` | user/umalloc.c:75-84 | cutting an allocation off the tail of a block keeps the list ordered and coalesced |
| `FreeList.CutFree` | user/umalloc.c:75-84 | and splits the free units into the ones taken and the ones still free |
| `FreeList.FreedRepresents` | user/umalloc.c:33-43 | free's pointer assignments turn the circular list in memory into the one with the block inserted |
| `FreeList.CutRepresents` | user/umalloc.c:75-84 | malloc's assignments turn it into the one with the block cut off |
| `Umalloc.FreePartition` | user/umalloc.c:25-44 | free keeps live and free blocks a partition of the heap without overlap |
| `Umalloc.CutPartition` | user/umalloc.c:64-90 | so does an allocation, whose block was not live |
| `Umalloc.GrowPartition` | user/umalloc.c:47-61 | so does memory that sbrk adds |
| `Umalloc.Allocator.FindGap` | user/umalloc.c:30-32 | the search loop of free terminates at the element behind which the block belongs, from any freep |
| `Umalloc.Allocator.Free` | user/umalloc.c:25-44 | free of a live pointer removes that block from the live ones, and keeps list, partition and total units |
| `Umalloc.Allocator.MoreCore` | user/umalloc.c:47-61 | adds at least 4096 units as free memory, with a block large enough for the request just behind freep; changes no live block; failing changes nothing |
| `Umalloc.Allocator.Malloc` | user/umalloc.c:64-90 | terminates; calls morecore at most once, and exactly when no free block is large enough; returns 0 exactly when that call failed; else a new live block of the requested size, disjoint from all others, with units conserved |
| `SleepWakeup.InvKept` | kernel/proc.c:541-585 | for any locks, any state they guard and any conditions: every step of acquire, release, sleep, wakeup, the scheduler and kill, in any interleaving, keeps that whoever is asleep or on the way there waits for something false or is owed a wakeup by the lock's holder |
| `SleepWakeup.NoLostWakeup` | kernel/proc.c:541-585 | in every run in which wakers hold the lock while they make a condition true and call wakeup: when the lock is free and the condition holds, nobody sleeps on the channel or is past release(lk) on the way to sleeping on it |
| `SleepWakeup.WakesAll` | kernel/proc.c:572-585 | in every run: when a wakeup is through, with the lock still held, nobody is asleep on its channel |
| `SleepWakeup.SleepersChange` | kernel/proc.c:541-609 | a process joins the sleepers in the very step in which it releases the lock, and leaves them only by a wakeup under that lock or by kill; so release and falling asleep may be taken as one step, as the log and the pipes are modelled |
| `SleepProgress.NoDeadlock` | kernel/proc.c:541-609 | in every run: who waits for a spin lock or a p->lock waits for a process that is in its own code under the lock, can go on, or waits for one that can |
| `SleepProgress.Wakes` | kernel/proc.c:572-585 | wakeup from start to end: exactly the processes asleep on the channel become runnable |
| `SleepProgress.Pays` | kernel/proc.c:572-585 | the wakeups that a change under the lock asks for, one after the other |
| `SleepProgress.SleepThenWake` | kernel/proc.c:541-585 | from every state of a run in which the locks are free: a process whose condition is false falls asleep with the lock free, and once another has made it true, with the wakeups that asks for, it comes back with the lock and finds it true |
| `SleepTurns.RelKept` | kernel/proc.c:541-609 | each step of any process, of the scheduler or of kill is a whole turn of a process under its spin lock, or no turn at all: the values under the locks and the sleepers of both machines stay in step |
| `SleepTurns.RunsAreTurns` | kernel/proc.c:541-609 | every run of sleep and wakeup, with each acquire and release a step of its own, is a run of atomic turns: take the lock, change what it guards, wake channels, then sleep or let go; the values under free locks and the sleepers on their channels are the same, and whoever sleeps waits for something false |
| `PipeTurns.PipeTurn` | kernel/pipe.c:59-130 | every step of the pipe protocol is a turn of sleep and wakeup under pi->lock with the same ring and sleepers; it wakes whom it must and sleeps only while it has to if and only if it is not a killed writer leaving an empty pipe after putting bytes |
| `PipeTurns.BlockingIsWaiting` | kernel/pipe.c:77-130 | the blocking condition of the pipe is what every run of such turns keeps |
| `LogTurns.LogTurn` | kernel/log.c:127-175 | every step of begin_op, log_write, end_op and commit is a turn under log.lock that wakes whom it must and sleeps only while it has to |
| `SleepLock.CoreRun` | kernel/sleeplock.c:22-41 | every run of acquiresleep and releasesleep is such a run of sleep and wakeup |
| `SleepLock.FreeLockNoSleeper` | kernel/sleeplock.c:22-41 | so in every run nobody sleeps on a sleep lock that is not locked while its spin lock is free |
| `SleepLock.HoldingExact` | kernel/sleeplock.c:22-52 | in every run: locked and pid name exactly the process that acquired the lock and has not released it, so no two processes hold it |
| `SleepLockRuns.Acquires` | kernel/sleeplock.c:22-32 | acquiresleep of a lock that is not locked gives it to the caller, and changes nothing else |
| `SleepLockRuns.Releases` | kernel/sleeplock.c:34-41 | releasesleep frees the lock and makes exactly its sleepers runnable |
| `SleepLockRuns.Handover` | kernel/sleeplock.c:22-41 | in every run, with the spin locks free: a process that asks for a lock another holds falls asleep, the holder releases it, and the first has it; nobody else's locks change |
| `ProcessLocks.InvKept` | kernel/proc.c:280-512 | every step of fork, exit, wait, sleep, wakeup, yield and the scheduler keeps lock ownership, CPU assignment and slot states consistent |
| `ProcessLocks.ZombieGone` | kernel/proc.c:391-435 | a zombie whose lock wait holds has switched away for good and is current on no CPU |
| `ExitWait.FamilyKept` | kernel/proc.c:331-386 | every step keeps the relation of parents and children: reparented before the zombie shows, waiting parents woken |
| `Reaping.AllKept` | kernel/proc.c:280-501 | every step keeps locks, families and the record of pids |
| `Reaping.RunKeeps` | kernel/proc.c:280-501 | so every reachable state has all of it |
| `Reaping.NoMissedZombie` | kernel/proc.c:391-435 | in every run: with wait_lock free, no process sleeps in wait while it has a zombie child |
| `Reaping.OneCpu` | kernel/proc.c:445-474 | in every run: no process is current on two CPUs |
| `Reaping.FreedOffCpu` | kernel/proc.c:402-421 | in every run: wait frees a slot only of its own child, which has left its CPU |
| `Reaping.ReapedOnce` | kernel/proc.c:391-435 | in every run: each exited process is reaped at most once, by its parent or init |
| `Reaping.ZombieUntilReaped` | kernel/proc.c:347-435 | in every run: a process has exited if and only if it is a zombie in the table or has been reaped, and never both |
| `Reaping.ParentAlive` | kernel/proc.c:331-341 | in every run: every process has a live parent, its own or init |
| `Reaping.NoChildren` | kernel/proc.c:402-430 | in every run: wait gives up for lack of children only when there are none |
| `Reaping.RunnableParked` | kernel/proc.c:457-471 | in every run: a process that the scheduler finds runnable is current on no CPU and fully saved; what happens to it then is ProcessRuns.Dispatched |
| `ProcessRuns.Dispatched` | kernel/proc.c:457-465 | in every run: a CPU that has looked at a runnable process has as its next step to run it, from where it left off |
| `ProcessRuns.NoDeadlock` | kernel/proc.c:280-501 | in every run: a CPU that cannot go on waits for a lock of one that can, or of one that waits for one that can |
| `LifeCycle.ForkWorks` | kernel/proc.c:110-326 | fork from start to end, when nobody holds the locks: the first unused slot becomes a runnable child of the caller with a fresh pid, and nothing else changes |
| `LifeCycle.WaitReaps` | kernel/proc.c:391-421 | wait frees exactly its first zombie child and records it as reaped |
| `LifeCycle.WaitSleeps` | kernel/proc.c:423-435 | wait with children but no zombie sleeps on the caller, with wait_lock free |
| `LifeCycle.ExitWorks` | kernel/proc.c:347-381 | exit gives the children to init, wakes init and the parent if they wait, and leaves a zombie off its CPU |
| `LifeCycle.WholeLife` | kernel/proc.c:280-501 | from boot, with one CPU and any table of two or more: a run in which a child is forked, dispatched, exits and is reaped by its waiting parent |
| `PipeRing.CountersExact` | kernel/pipe.c:88-121 | 32-bit counters that wrap around still tell empty and full exactly |
| `PipeRing.PutHolds` | kernel/pipe.c:92-96 | putting a byte appends it to what the ring holds |
| `PipeRing.TakeHolds` | kernel/pipe.c:121-123 | taking a byte gives the oldest one |
| `PipeRing.WriteFifo` | kernel/pipe.c:77-103 | a turn of pipewrite puts a contiguous part of its source, in order, exactly up to its end, to the end of what can be read, to a full ring or to where it is found killed; it sleeps only on a full ring with an open reader |
| `PipeRing.WriteEnds` | kernel/pipe.c:83-90 | when a turn of pipewrite fails, when it does after putting bytes, and when it sleeps, in terms of its arguments and the room in the ring |
| `PipeRing.ReadFifo` | kernel/pipe.c:106-130 | a turn of piperead takes the oldest bytes, in order: exactly the least of what is asked for, what is there, and one more than can be stored; it delivers all of them but the one whose copyout fails |
| `PipeRing.WriteQueue` | kernel/pipe.c:77-103 | the same of the bytes in the ring alone, for every ring with at most PIPESIZE bytes, whatever its history: pipewrite appends what it puts |
| `PipeRing.ReadQueue` | kernel/pipe.c:106-130 | and piperead takes from the front exactly that many, 0 for a negative count |
| `PipeRing.Pipe.Write` | kernel/pipe.c:77-103 | the loop on the array does exactly that turn: the bytes in the ring are those before and those put, and the index returned is how far it had to get |
| `PipeRing.Pipe.Read` | kernel/pipe.c:106-130 | likewise: it delivers the least of the count, the bytes in the ring and the room, from the front, and leaves the rest; it sleeps exactly on an empty ring with an open writer |
| `PipeProtocol.FifoKept` | kernel/pipe.c:59-130 | every step keeps the ring equal to the bytes put and not yet taken |
| `PipeProtocol.PipeFifo` | kernel/pipe.c:59-130 | in every run, kill included: the bytes taken are a prefix of the bytes put, byte for byte, at most PIPESIZE are outstanding, and the ring holds exactly those |
| `PipeProtocol.BlockingKept` | kernel/pipe.c:77-130 | a step keeps "a sleeping reader has an empty pipe with an open writer, a sleeping writer a full one with an open reader" if and only if it is not a writer beside a sleeping reader that finds itself killed at an index before its end, up to which it has bytes to put and the empty pipe has room |
| `PipeProtocol.PipeBlocking` | kernel/pipe.c:77-130 | a run keeps it at every point if and only if no step of it is such a one; without kill none is |
| `PipeProtocol.KillDeserts` | kernel/pipe.c:83-90 | with kill it can fail: a run of four steps that leaves a reader asleep on a non-empty pipe |
| `PipeProgress.NeverBothAsleep` | kernel/pipe.c:77-130 | in every run in which no killed writer deserts a reader, a reader and a writer are never both asleep |
| `PipeProgress.Arrives` | kernel/pipe.c:77-130 | from every state of a run with both ends open: an idle writer can write any bytes, however many, and an idle reader read until all have come through, behind what was in the pipe |
| `PageTable.PrefixStep` | kernel/riscv.h:338-357 | the three 9-bit indices are the digits of the page number |
| `PageTable.IndicesDetermine` | kernel/riscv.h:338-357 | distinct pages below MAXVA never share a PTE slot |
| `PageTable.SetLeaf` | kernel/vm.c:86-103 | storing a last-level entry changes the flat map at that page and nowhere else |
| `PageTable.AddDir` | kernel/vm.c:95-100 | hooking in an empty table page changes no translation |
| `Vm.MappedAt` | kernel/vm.c:144-172 | the map that mappages leaves: exactly the named pages, consecutively; every other translation as before |
| `Vm.Vm.KAlloc` | kernel/kalloc.c:69-82 | hands out a page that nobody uses; fails exactly on an empty free list |
| `Vm.Vm.KFree` | kernel/kalloc.c:47-63 | a used page becomes free; no other page changes |
| `Vm.Vm.Walk` | kernel/vm.c:86-103 | finds or builds the last-level table of a page without changing any translation; not found exactly when it does not exist, and when allocating only for lack of memory |
| `Vm.Vm.MapPages` | kernel/vm.c:144-172 | the radix tree refines the flat map with exactly the first k pages added; all of them on success, and a failure means no memory |
| `Vm.Vm.Unmap` | kernel/vm.c:178-199 | exactly the named pages leave the map, and exactly their frames are freed when asked |
| `PageFree.PrunedTree` | kernel/vm.c:279-294 | clearing a directory entry leaves the tree without that subtree |
| `PageFree.FreeWalk` | kernel/vm.c:279-294 | frees exactly the table pages of the subtree, each once, and never meets a leaf |
| `UserCopy.ChunkWrites` | kernel/vm.c:359-383 | a chunk within one page is the same as its single bytes at their addresses |
| `UserCopy.WrittenAt` | kernel/vm.c:359-383 | a byte outside the range, and not aliased with it, is unchanged |
| `UserCopy.RoundTrip` | kernel/vm.c:359-408 | copyin of what copyout wrote returns the same bytes when no two addresses of the range are one physical byte |
| `UserCopy.AliasBreaks` | kernel/vm.c:359-408 | if two were, as no page table of a process here has it, some contents would not come back |
| `UserCopy.RoundTripExactly` | kernel/vm.c:359-408 | the round trip holds for all contents if and only if the range is not aliased |
| `UserCopy.CopyOut` | kernel/vm.c:359-383 | writes through the page table exactly the bytes up to the first address that is not a writable user page; succeeds iff there is none |
| `UserCopy.CopyIn` | kernel/vm.c:389-408 | reads through the page table up to the first address that is not a user page; succeeds iff there is none |
| `UserMemory.RoomToGrow` | kernel/vm.c:233-256 | user memory can never reach the trapframe page, since it has at most as many pages as physical memory |
| `UserMemory.AddPage` | kernel/vm.c:242-254 | one page of growth: mapped to a fresh frame, or a failure that leaks nothing and leaves the map as it was; it succeeds if and only if there are free pages for the frame and each page table that is missing |
| `UserMemory.OwnUnaliased` | kernel/vm.c:233-256 | no two addresses that the user of a process can reach are the same physical byte |
| `UserMemory.OwnRoundTrip` | kernel/vm.c:359-408 | so in every process what copyout stores in memory its user can reach comes back from copyin |
| `Uvm.UvmDealloc` | kernel/vm.c:263-274 | shrinking removes exactly the pages above the new size and frees exactly their frames |
| `Uvm.UvmAlloc` | kernel/vm.c:233-256 | growing adds exactly the new pages, zeroed, in fresh frames, with the given permissions; a failure at any page restores the leaf map and leaks nothing; it succeeds if and only if there are free pages for the frames and the missing tables |
| `Uvm.UvmCopy` | kernel/vm.c:313-340 | the child gets fresh frames with the parent's contents and flags at every page; a failure leaves the child empty and leaks nothing; it succeeds if and only if there are enough free pages |
| `Uvm.Beside` | kernel/vm.c:313-340 | an operation on one process's pages keeps another's page table and contents |
| `ProcTable.UvmFree` | kernel/vm.c:299-304 | gives back exactly the leaf frames and the table pages |
| `ProcTable.ProcPagetable` | kernel/proc.c:177-206 | a page table with trampoline and trapframe, or nothing and no page lost, at each of the three points of failure; it succeeds if and only if three pages are free |
| `ProcTable.TablesCount` | kernel/vm.c:85-105 | n user pages take one table for every 512 of them and one for every 512 of these, rounded up |
| `ProcTable.ProcFreePagetable` | kernel/proc.c:211-216 | gives back exactly the process's leaf frames and table pages, not the trampoline or trapframe |
| `PageOwners.WholeStep` | kernel/proc.c:156-172 | an operation confined to one process's pages keeps the partition of all used pages among processes |
| `ProcImages.AllocImage` | kernel/proc.c:110-150 | allocproc's pages: trapframe and page table, or a failure that gives back what was taken; it succeeds if and only if four pages are free |
| `ProcImages.FreeImage` | kernel/proc.c:156-172 | freeproc gives back exactly the process's pages |
| `ProcImages.ForkImage` | kernel/proc.c:280-326 | fork's pages: a full copy in fresh frames, or nothing at all; it succeeds if and only if there are four free pages, one for each user page and one for each table these need |
| `ExecImages.GrowImage` | kernel/proc.c:260-275 | growproc: the new size with zeroed writable pages above the old one, or a failed growth with the same leaf map; memory below is untouched; growth succeeds if and only if the pages and tables it needs are free |
| `ExecImages.UvmClear` | kernel/vm.c:345-353 | takes the user bit off one page's entry and changes nothing else |
| `ExecImages.PermMeans` | kernel/exec.c:12-20 | a page mapped with flags2perm's permissions is the user's, and writable and executable exactly as the segment's flags say |
| `ExecImages.BuildSegments` | kernel/exec.c:53-70 | the segment loop: on success the size is the largest segment end, and every page of a segment above the earlier ends is mapped with its permissions; it fails only for a segment that fails a check or cannot be read, or for want of pages |
| `ExecImages.BuildStack` | kernel/exec.c:78-86 | two pages on top of the image; the lower one is not accessible to the user |
| `ExecImages.PushArgs` | kernel/exec.c:87-110 | argument strings and their pointers go on the stack page if and only if there are at most MAXARG and all fit, rounded to 16; then each lies below the one before, aligned, inside the page, and so does the pointer array |
| `ExecImages.BuildImage` | kernel/exec.c:49-140 | a new image: size the largest segment end rounded up plus two pages, every segment page mapped with its permissions, the page below the stack out of the user's reach, the stack page writable, the arguments on it; or, at every failure, all its pages given back. It succeeds if and only if every segment passes its checks and loads, the arguments fit, and there are enough free pages |
| `Conservation.Fork` | kernel/proc.c:280-326 | free, leaf, table, trapframe and other pages stay a partition of memory; the child's pages are copies; no page in use before, the parent's included, changes contents; a failure leaves all processes as they were; it succeeds if and only if there are enough free pages for what it needs |
| `Conservation.Grow` | kernel/proc.c:260-275 | the same partition for growproc, success or failure; other processes' pages keep their contents, and so do the user pages that stay; new pages are zeroed; it succeeds if and only if there are enough free pages for what it needs, or shrinks |
| `Conservation.Free` | kernel/proc.c:156-172 | the same for teardown, with everybody else's contents unchanged |
| `Conservation.Exec` | kernel/exec.c:23-141 | the same for exec: the new image is the one of the segments and arguments, and the old one's pages are given back exactly when it is installed; on failure no page in use changes contents, on success only the old image's may; it succeeds if and only if BuildImage does |
| `Conservation.FetchArgs` | kernel/sysfile.c:446-462 | argument pages are distinct and fresh, on success and at every failure; it succeeds if and only if there are fewer than MAXARG, each can be read and there is a page for each |
| `Conservation.FreeArgs` | kernel/sysfile.c:466-474 | gives back exactly the argument pages |
| `Conservation.SysExec` | kernel/sysfile.c:435-475 | the same partition, contents and new image over the whole call, so no argument page is leaked or freed twice; success exactly by arguments, segments and free pages |
| `PageSharing.RunConserves` | kernel/kalloc.c:46-82 | any interleaving of kalloc, kfree and stores by any number of processes keeps every page on the free list, once, or with one process |
| `PageSharing.RunIsolates` | kernel/kalloc.c:46-82 | after any such interleaving a process finds in its pages what its own calls and stores make of them, as if it were alone |
| `PageSharing.AllocExactly` | kernel/kalloc.c:68-82 | kalloc gives the caller a page that nobody owns, filled with junk, and does nothing if and only if every page has an owner |
| `PageSharing.GiveThenAlloc` | kernel/kalloc.c:46-82 | who gives a page back and asks again gets it again |
| `ShellRoundTrip.PrintedLine` | user/sh.c:346-447 | the parenthesised text of a command, in any context that ends it, parses as that command and is consumed exactly |
| `ShellRoundTrip.RoundTrip` | user/sh.c:329-447 | parsing the printed text of any command with proper words and fewer than MAXARGS arguments gives back that command |
| `ShellTokens.SameTokens` | user/sh.c:267-447 | two lines with the same tokens parse to the same command, or to the same error |
| `ShellTokens.SpaceIgnored` | user/sh.c:267-321 | a white space character put anywhere but inside a word or inside >> makes no difference |
| `ShellTokens.SpacedRoundTrip` | user/sh.c:329-447 | the round trip, with any white space added between the tokens of the printed text |
| `ShellNormal.NormalForm` | user/sh.c:329-447 | whatever line the parser accepts: its command can be printed, and parsing that text gives the same command |
| `ShellNormal.ParsedExactly` | user/sh.c:329-447 | a command is what some line parses to if and only if its words are proper and no part of it has MAXARGS arguments or more |
| `ShellGrammar.ParserExact` | user/sh.c:329-447 | the grammar of sh.c as trees of tokens, with redirections before, between and behind arguments, pipes, lists and parentheses: a line is accepted if and only if its tokens are those of some well-formed tree, and then the command is what that tree means, with every word and every redirection in its place |
| `ShellGrammar.SpelledParses` | user/sh.c:329-447 | the tokens of any such tree, written out without added parentheses, parse to what it means |
| `ShellCode.GetToken` | user/sh.c:267-309 | the scanning code computes the token function |
| `ShellCode.Peek` | user/sh.c:312-321 | skips blanks and tells whether the next character is among the given ones |
| `ShellCode.ReadRedirs` | user/sh.c:376-398 | the redirection loop computes the recursive specification, errors included |
| `ShellCode.ParseExecLoop` | user/sh.c:417-447 | so does the argument loop, including too many arguments |
| `ShellCode.ParseLineCode` | user/sh.c:346-360 | so does parseline with its loop over & |
| `ShellCode.ParsePipeCode` | user/sh.c:363-373 | so does parsepipe |
| `ShellCode.ParseBlockCode` | user/sh.c:401-414 | so does parseblock |
| `ShellCode.ParseCmdCode` | user/sh.c:329-343 | parsecmd terminates on every line and computes the specification, with leftovers an error |
| `ShellWords.LineTidy` | user/sh.c:346-447 | the words of a parsed line are non-empty, inside the line, pairwise disjoint, and not directly followed by a word character |
| `ShellWords.NulTerminate` | user/sh.c:451-494 | writes a NUL right behind every word of the tree and changes nothing else |
| `ShellWords.WordsReadBack` | user/sh.c:451-494 | afterwards every argv and file string reads back exactly its word |
| `ShellWords.ParseCommand` | user/sh.c:329-343 | parsing and terminating a buffer in place: on success every word reads back as lexed |
| `Regex.MatchHere` | user/grep.c:85-96 | matchhere agrees with the language of the pattern's items |
| `Regex.MatchStar` | user/grep.c:99-106 | matchstar: some number of accepted characters, then the rest |
| `Regex.Match` | user/grep.c:73-82 | match terminates and says exactly whether the text is in the meaning of the pattern parsed into literals, dots, stars and anchors |
| `Regex.PlainMatches` | user/grep.c:73-96 | a pattern without stars and anchors matches exactly the texts with a stretch that agrees with it character by character, '.' with any |
| `Regex.AnchoredMatches` | user/grep.c:73-96 | between ^ and $ it is for the whole text |
| `Regex.StarMatches` | user/grep.c:89-106 | ^c*$ matches exactly the texts of c alone, or every text if c is '.' |
| `Grep.Lines` | user/grep.c:19-29 | the inner loop prints the matching complete lines of the buffer and leaves the rest |
| `Grep.Grep` | user/grep.c:12-35 | the output is the same function of the input for every way reads are cut |
| `Grep.HiddenLost` | user/grep.c:12-35 | all matching lines are what grep prints, followed by the matching ones from the first line on that is too long or has a NUL; it prints all exactly when none of those matches |
| `Grep.AllFitExactly` | user/grep.c:12-35 | grep prints exactly the matching newline-terminated lines, for every pattern, if and only if each line fits 1023 bytes with its newline and has no NUL |
| `Grep.LineLost` | user/grep.c:18-22 | every line of 1023 bytes or more, or with a NUL in it, is lost though it matches |

## Left out

- LogDevice.Log.Commit: runs on its own, as begin_op and end_op see to (GroupCommit); buffers opened meanwhile by readers outside of transactions are counted as open before it starts.
- LogDevice.Log.Update: runs inside an operation, and a client that changes a buffer always logs it. The path at kernel/fs.c:522-525, where a copy fails half way and the changed buffer is released unlogged, is outside this discipline; FileWrite.Writei has its effect on what is read while the buffer stays cached, not that the buffer may be recycled and the change be lost.
- BufferCache.Cache.Bget: the buffer's sleep lock is not part of the cache class; SleepLock models such locks on their own, and buffers are changed only through a held reference.
- BufferCache.Cache.Brelse: a changed buffer is not released for the last time unless the log has pinned it, which all clients but kernel/fs.c:523 see to.
- BufferCache.Cache.Bread: requires a real device (dev nonzero) and a block on the disk; the disk driver (virtio_disk.c, ramdisk.c) is an atomic block map.
- Fs.Fs.Balloc: bitmap bits are booleans and a block holds bytes or pointers; DiskLayout has their words on the disk. The set of blocks logged is recorded, the log itself is LogDevice's.
- DiskLayout.Unambiguous: of struct dinode only whether it is in use, the size and the block numbers; type, device numbers and link count are not part of the model of inodes there.
- FsRuns.Apply: writes that copy part of a chunk in vain are excluded, since the log does not cover them (FsRuns.VainUncovered). Directory.DirLink and Directory.ClearEntry are covered as well, but not among the calls; nor are ialloc and iput.
- FsCrash.Serve: the reads and log_writes of a transaction are given, in any order in which the last write of each logged block has its final contents.
- Fs.Fs.Bmap: bn is below MAXFILE, which its callers prove; beyond that the source panics.
- Trunc.Itrunc: ialloc, iget, iput, ilock and the table of in-memory inodes are not modelled; file operations run one at a time, as their inode locks make them.
- FileCalls.Filewrite: only the inode branch; n and the offset are non-overflowing ints. Device and pipe branches only dispatch.
- Directory.DirLookup: names have no NUL byte, as C strings do; the "dirlookup read" panics are shown unreachable for directories of whole entries.
- Namex.Namex: which inodes are directories is given; locking and reference counts along the path are not modelled.
- LinkCalls.Files.Link: works on the map of names of each directory that Directory proves its bytes to represent; path lookups and out-of-space outcomes of dirlink are parameters. Link counts do not overflow a short.
- LinkCalls.Files.Unlink: whether another reference keeps the inode alive is a parameter.
- LinkCalls.Files.Create: what ialloc finds, and whether the disk is full, are parameters.
- TightBudget.TightDisk: the disk has more blocks than FSSIZE in param.h, whose bitmap fits one block; there the bound is not reached.
- SleepWakeup.NoLostWakeup: acquire and release are atomic steps; memory ordering and the spin loop of spinlock.c are not modelled. kill is modelled as an arbitrary spurious wakeup. In SleepLock pids are slot numbers.
- LifeCycle.ForkWorks: this and the other lemmas of LifeCycle, SleepProgress.SleepThenWake, SleepLockRuns.Handover, PipeProgress.Arrives and LogProgress.GetsThrough show runs in which the call gets done; that a fair scheduler always gets there is not stated.
- Reaping.ReapedOnce: pids grow without wrapping around; kill, the exit status and the copy of it to the user are choices that may go either way.
- PipeProtocol.PipeFifo: a turn of a reader or writer between two points where it holds no lock is one step, as SleepTurns justifies; an end is closed only when no call uses it, which the file table's reference counts (not modelled) ensure.
- PageTable.SetLeaf: shifts and masks are written as division and remainder, addresses as page numbers; a page holds a table or bytes, so aliasing of a table page as data is excluded by ownership. TLB flushes are not modelled.
- Vm.Vm.MapPages: the panics on unaligned addresses, remapping and addresses beyond MAXVA are preconditions, which the callers modelled here prove.
- UserCopy.CopyIn: copyinstr is left out, it would only add a variant of the same loop.
- ExecImages.BuildImage: the program headers of loadable segments are given, with whether each could be read and whether loadseg's reads succeed; the bytes that loadseg and the two copyouts store are not modelled, only where the arguments lie. The ELF header check, the program name and the registers are left out.
- ExecImages.GrowImage: a shrink below zero wraps around in the source and then shrinks nothing, as here; sizes do not overflow 64 bits.
- Conservation.Fork: open files, the name and the saved registers are not modelled; the call runs without other system calls in between, whose kalloc and kfree PageSharing interleaves.
- Umalloc.Allocator.Malloc: requests are unbounded naturals, so the int argument of sbrk is not truncated; sbrk returns memory above all it returned before, aligned to a header, and base lies below the heap.
- Regex.Match: strings have no NUL inside; characters are not bytes with a sign.
- Grep.Grep: read errors end the loop like end of input does; the file arguments and main are left out.
- ShellCode.ParseCmdCode: allocation of tree nodes always succeeds; a syntax error ends the parse as panic does. Running commands is left out.
- ShellRoundTrip.RoundTrip: the printed form puts every subcommand in parentheses; ShellGrammar.SpelledParses is the round trip for spellings without them.
- Console, UART, interrupts, traps, system-call dispatch, context switch code, boot and the kernel page table: device and register level code without a property of this kind.
- mkfs beyond its layout constants, the test programs and the small user programs: thin wrappers or host tools.
