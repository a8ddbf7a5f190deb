# xv6 verification

A Dafny model of the parts of x86 xv6, with its added kernel log, whose correctness depends on whole runs or on
data structures that several functions share. The model follows the C code: objects whose fields the kernel updates
are classes, its loops are loops, and each method is proved against a specification on values. The main results are
lemmas about those specifications, over every input, every reachable state or every run.

| files | what they model |
|---|---|
| LogFormat, LogSystem, Log | The write-ahead log: on-disk format, the step system with crashes, and the code over a disk with a trace of every intermediate disk. |
| BufferCache | The LRU ring and the buffer cache over the memory disk. |
| FileBlocks, FileSystem | Block allocation, the direct and indirect block map, reading, writing and truncating files, transaction sizes. |
| Removal | What removing a name writes to the disk, and what that costs. |
| FullDisk, TruncDisk, Transactions | Disks on which those sizes are reached or exceeded; the file system's transactions as clients of the log. |
| LinkCount, Directories | Directories, link counts, path walks, inode references, create, link and unlink. |
| PathEffects | When those calls succeed, and what they do to every path. |
| VmSpec, VmSteps, Vm | Page tables against flat maps, and the one owner of every physical page. |
| Sched, SchedSteps, ProcTable | Processes, CPUs, sleep and wakeup, sleep locks, as a step system; what its steps come to, and progress; the loops over the process table. |
| PipeSpec, Pipe | Pipes as critical sections over a ring with wrapping counters. |
| FileTable, FileCalls | Open files, descriptors and pipe ends of all processes as a step system over reference counts; dup, close, pipe, fork and exit as wholes. |
| Heap | The user-level allocator of K&R, The C Programming Language, 2nd edition, section 8.7. |
| KlogSpec, KlogRace, Klog | The per-CPU log rings and the snapshot that merges them, alone and with others logging. |
| ShellSpec, Shell | The shell's lexer and parser, the grammar of its lines, a printer, and NUL termination. |
| Grep | The pattern matcher and the meaning of its patterns. |
| Basics | What several of them share. |

`dafny verify dfyconfig.toml` checks the whole project.

A spinlock's critical section is one step, a block write to disk is one step, and a panic is an outcome or is shown not
to happen. Some properties one would expect do not hold of the code. Each is stated with the exact condition under
which it does hold:

- `log_write` refuses at `log.size - 1` while `begin_op` reserves up to LOGSIZE, so the log mkfs lays out is one block
  too small (`SmallLogPanics`, `PanicOnlyOnFullLog`); and the check comes before absorption (`FullLogPanicsOnRewrite`).
- `link` to a name "." (or ".." in the root) waits for an inode lock it holds itself (`LinkStuckIff`).
- `create` and `link` in a directory that has been unlinked break the link counts (`CreateKeepsIff`, `LinkKeepsIff`), and
  a walk from one can panic: exactly when it climbs to a parent that has been freed (`PathPanicsIff`, `WalkCanPanic`).
- `itrunc` can log more blocks than a transaction may once data blocks have bits in ten bitmap blocks (`TruncExceeds`),
  and `unlink` once they have them in nine for a file, eight for a directory (`RemovalCost`, `RemoveExceeds`).
- `malloc` rounds up and multiplies in 32 bits, so that requests above 2^31 - 16 bytes get blocks that are too small or
  that the process does not hold (`RoomIff`, `GrantIff`, `Malloc`, `AskCanTakeAll`).
- `klog_snapshot` loses new entries when its limit falls inside a CPU's ring or a later CPU has newer ones (`RecentIff`),
  which takes a ring that has wrapped (`UnwrappedRecent`); its sort runs out of range when nothing is retained or wanted
  (`Snapshot`, and `SnapshotRacing` with other CPUs logging).
- `kill` of pid 0 marks an unused slot, so that the next process in it is born killed: a slot's mark goes only when
  `wait` empties it (`KilledIff`, `BornKilled`).
- `pipewrite` returns on kill without waking readers (`SleepStepIff`, `KillForgets`).

## Model

| member | source | states |
|---|---|---|
| LogFormat.HeaderRoundTrip | xv6-public/log.c:86-113 | Reading a header block back gives the block numbers that were written into it. |
| LogFormat.RecoveredAt | xv6-public/log.c:70-122 | Recovery writes every logged block to its home, leaves every other home block alone and empties the header. |
| LogFormat.RecoveryIdempotent | xv6-public/log.c:116-122 | A recovery cut short after any number of its block writes does not change where recovery ends. |
| LogFormat.CrashesDuringRecovery | xv6-public/log.c:116-122 | The same for any number of cut-short recoveries, one after the other. |
| LogFormat.CommitCut | xv6-public/log.c:178-202 | Recovery after any prefix of commit's block writes gives all old contents before the header write and all new contents from it on. |
| LogFormat.CrashAtomicity | xv6-public/log.c:69-202 | A crash after any write of commit, then any number of crashed recoveries, then one that completes: the home blocks are all old or all new, decided by the header write alone. |
| LogSystem.InitInv | xv6-public/log.c:54-66 | The invariant holds of a clean disk with no operation in progress. |
| LogSystem.StepInv | xv6-public/log.c:126-233 | Every step of begin_op, log_write, end_op, commit, crash and recovery keeps the invariant, for clients that log at most MAXOPBLOCKS distinct blocks per operation. |
| LogSystem.RunInv | xv6-public/log.c:126-233 | So every state of every run satisfies it. |
| LogSystem.CrashSafety | xv6-public/log.c:126-233 | Whenever the machine stops in any run, recovery yields the replay of a prefix of the write history that contains each operation whole or not at all, and none that had not ended. |
| LogSystem.CrashSafetyRepeated | xv6-public/log.c:116-122 | The same with any number of crashes during that recovery. |
| LogSystem.CommittedIsNeverLost | xv6-public/log.c:193-202 | The durable prefix never shrinks, through every later step and crash. |
| LogSystem.GroupCommit | xv6-public/log.c:126-233 | In every reachable state: committing means no operation is outstanding, ending an operation never meets the "log.committing" panic, the header has no duplicates, and header plus unused reservations fit in LOGSIZE. |
| LogSystem.WriteReads | xv6-public/log.c:214-233 | After a log_write the block reads as the data just written, also if it was pinned already; every other block reads as before, the disk is the same, and the header names the block. |
| LogSystem.HistoryIsWritten | xv6-public/log.c:126-233 | Over every run the history is, in order, what the log_writes of the run wrote, cut at each crash to what had been written when a header last reached the disk; that part is the durable one. |
| LogSystem.RecoveredIsLast | xv6-public/log.c:116-233 | So whenever the machine stops, recovery gives each home block the last data written to it before the last commit point, or what it held at the start. |
| LogSystem.ReadIsLast | xv6-public/log.c:214-233 | And between commits each block reads as the last data written to it. |
| LogSystem.BeginIff | xv6-public/log.c:126-141 | In every run begin_op admits an operation exactly when no commit or recovery is going on and lh.n + (outstanding + 1) * MAXOPBLOCKS is at most LOGSIZE; it is then a new one that has logged nothing. |
| LogSystem.WriteIff | xv6-public/log.c:218-221 | In every run log_write by an operation in progress succeeds exactly when lh.n is below LOGSIZE and below log.size - 1, and panics otherwise. |
| LogSystem.EndNext | xv6-public/log.c:146-174 | Ending an operation never panics, and ending the last one starts a commit of the whole header. |
| LogSystem.CommitRuns | xv6-public/log.c:146-202 | A commit that has begun runs to its end through the step system, whatever the header holds. |
| LogSystem.PanicOnlyOnFullLog | xv6-public/log.c:218-219 | With log.size >= LOGSIZE + 1, log_write panics exactly when the header is full, and then every operation in progress has used up its reservation. |
| LogSystem.SmallLogPanics | xv6-public/mkfs.c:25 | With log.size <= LOGSIZE, the size mkfs lays out, some disciplined run panics on a block it has not logged before. |
| LogSystem.FullLogPanicsOnRewrite | xv6-public/log.c:218-227 | Even with a larger log a run panics when a block already in a full header is logged again, because the check precedes absorption. |
| Log.Log.InstallTrans | xv6-public/log.c:70-82 | The disk becomes the installed disk, exactly the logged blocks are unpinned, and the trace grows by every intermediate disk. |
| Log.Log.ReadHead | xv6-public/log.c:86-96 | The in-memory header is the one on disk. |
| Log.Log.WriteHead | xv6-public/log.c:102-113 | One block write puts the in-memory header on disk. |
| Log.Log.WriteLog | xv6-public/log.c:178-190 | The disk is the one after the first n writes of a commit, and so is each disk in the trace. |
| Log.Log.Commit | xv6-public/log.c:193-202 | The disk ends as after all writes of commit, every intermediate disk is the one the crash analysis names, the header is empty and nothing stays pinned. |
| Log.Log.RecoverFromLog | xv6-public/log.c:116-122 | The disk ends recovered, through exactly the writes the crash analysis names. |
| Log.Log.BeginOp | xv6-public/log.c:126-141 | One pass of the loop admits the operation exactly when the step system does, which is when no commit is going on and the reservation fits; the fields then show the step's result. |
| Log.Log.LogWrite | xv6-public/log.c:214-233 | Panics exactly when the step does; otherwise the buffer is pinned with the data given, the block is in the header once, and the fields show the step's result. |
| Log.Log.EndOp | xv6-public/log.c:146-174 | The fields show a state the step system reaches by ending the operation and, if it was the last, running the whole commit. |
| LruRing.UnlinkRing | xv6-public/bio.c:132-133 | Taking a buffer out leaves prev and next one ring over the others, in the same order. |
| LruRing.LinkRing | xv6-public/bio.c:134-137 | Putting a buffer in after the head leaves one ring with it in front. |
| LruRing.MoveRing | xv6-public/bio.c:132-137 | Both together move it to the front. |
| LruRing.MoveToFront | xv6-public/bio.c:121-141 | The order stays a permutation of all buffers. |
| BufferCache.RecycleCoherent | xv6-public/bio.c:82-89 | Giving a free clean buffer to another block loses nothing: the cache and disk still hold the latest contents of every block. |
| BufferCache.RecycleUnique | xv6-public/bio.c:82-89 | It also leaves at most one buffer per block of a device numbered 1 or more. |
| BufferCache.WriteBackCoherent | xv6-public/memide.c:39-60 | Writing a buffer's own contents to its block keeps the cache coherent. |
| BufferCache.FillCoherent | xv6-public/memide.c:39-60 | So does reading the block into its buffer. |
| BufferCache.PinnedOverDisk | xv6-public/bio.c:97-116 | With no lock held, the latest contents of a block are its dirty buffer's, or else the disk's. |
| BufferCache.BufferCache.constructor | xv6-public/bio.c:39-56 | One ring over all buffers, none valid, and the disk holds the latest contents. |
| BufferCache.BufferCache.FindCached | xv6-public/bio.c:69-76 | Finds the block's buffer if and only if there is one. |
| BufferCache.BufferCache.FindUnused | xv6-public/bio.c:81-90 | Finds the least recently released buffer among those with refcnt 0 and not dirty, or reports that there is none. |
| BufferCache.BufferCache.Bget | xv6-public/bio.c:62-93 | Reuses the block's buffer, or recycles that least recently released one, or fails only when every buffer is in use or dirty; uniqueness, coherence and the ring are kept. |
| BufferCache.BufferCache.Iderw | xv6-public/memide.c:39-60 | A dirty buffer is written to its block and becomes clean; otherwise the block is read and the buffer becomes valid. |
| BufferCache.BufferCache.Fill | xv6-public/bio.c:97-106 | The caller of bread sees the latest contents of the block, and the disk does not change. |
| BufferCache.BufferCache.Modify | xv6-public/bio.c:97-106 | The lock holder's change becomes the latest contents. |
| BufferCache.BufferCache.MarkDirty | xv6-public/log.c:231 | A logged buffer is pinned. |
| BufferCache.BufferCache.Bwrite | xv6-public/bio.c:110-116 | The buffer's contents reach the disk. |
| BufferCache.BufferCache.Unlock | xv6-public/bio.c:121-126 | The lock is released and the cache stays coherent, with another process free to take the buffer before the reference is given back. |
| BufferCache.BufferCache.Brelse | xv6-public/bio.c:128-140 | The reference count drops, also when another process holds the lock by now; at 0 nobody holds it, and the buffer moves to the front and is stamped, so that the ring stays ordered by last release. |
| FileBlocks.WordRoundTrip | xv6-public/fs.c:389-394 | A block number stored in an indirect block reads back. |
| FileBlocks.OneOwner | xv6-public/fs.c:373-400 | No two slots of inodes hold the same block. |
| FileBlocks.BitMeansOwned | xv6-public/fs.c:57-95 | A block's bitmap bit is set exactly when it is metadata or some slot holds it. |
| FileBlocks.OwnsAssign | xv6-public/fs.c:373-388 | A free zeroed block put into an empty slot, or the empty indirect pointer, keeps every block with exactly one owner. |
| FileBlocks.OwnsAssignIndirect | xv6-public/fs.c:389-397 | So does one put into an empty entry of the indirect block. |
| FileBlocks.OtherFile | xv6-public/fs.c:373-400 | Extending one file leaves every other file's bytes as they were. |
| FileBlocks.WroteIsSplice | xv6-public/fs.c:494-509 | A finished write is a splice of the bytes into the file, across direct and indirect blocks. |
| FileBlocks.WroteOthers | xv6-public/fs.c:482-511 | A write to one inode leaves the slots, density and bytes of the others. |
| FileBlocks.TruncOwns | xv6-public/fs.c:408-435 | With all of one inode's blocks freed, every remaining slot still owns its block. |
| FileSystem.TransactionBound | xv6-public/file.c:127-145 | A chunk of filewrite logs at most MAXOPBLOCKS distinct blocks, for any file size and any offset within it. |
| FullDisk.DiskOwned | xv6-public/mkfs.c:23-103 | A nearly full disk, laid out as mkfs does for 12289 blocks: every block in use has one owner, with a root directory and 57 files of the largest size and one file of 6000 bytes. |
| FullDisk.ReachBound | xv6-public/file.c:127-145 | The bound is reached: on that disk, whose four free blocks have their bits in four bitmap blocks, an append of one chunk to the file of 6000 bytes logs exactly MAXOPBLOCKS different blocks. |
| FileSystem.FileSystem.AccountTotal | xv6-public/fs.c:482-511 | Adds up one write: the data, bitmap, indirect and inode blocks it logs are at most WriteCost, and exactly WriteCost when the regions are laid out as mkfs does and the free blocks are scattered. |
| FileSystem.FileSystem.TrackBlock | xv6-public/fs.c:498-504 | One turn of the loop adds one data block not seen before and exactly the one or two free blocks that it needed. |
| FileSystem.FileSystem.Balloc | xv6-public/fs.c:57-78 | Takes the first free block and zeroes it; fails exactly when none is free. |
| FileSystem.FileSystem.Bmap | xv6-public/fs.c:373-400 | The block of file block bn, allocated from the free ones if bn is the next one, with ownership and every byte kept; the blocks it logs, exactly; panics exactly when fewer than the needed one or two blocks are free. |
| FileSystem.FileSystem.Writei | xv6-public/fs.c:482-511 | Splices the bytes into the file, or refuses with nothing changed; other files are the same; no file gets holes; afterwards the inode in memory equals the one on disk. At most WriteCost blocks are logged, and exactly that many if no two free blocks share a bitmap block; a write within the file logs exactly the blocks it changes, and takes none. It panics exactly when fewer blocks are free than the file grows by. |
| FileSystem.FileSystem.Readi | xv6-public/fs.c:453-476 | Returns exactly the slice of the file that exists, and changes nothing. |
| FileSystem.FileSystem.Itrunc | xv6-public/fs.c:408-435 | Frees exactly the blocks the inode owned, never a free one; the file is empty. It logs exactly their bitmap blocks and the inode block, at most one more than there are bitmap blocks for data. |
| TruncDisk.TruncExceeds | xv6-public/fs.c:408-435 | Whenever data blocks have bits in ten bitmap blocks or more, there is a file whose truncation logs more than MAXOPBLOCKS blocks; with nine or fewer none does, by the contract of Itrunc. |
| Removal.ClearEntry | xv6-public/sysfile.c:229-231 | Clearing the entry of the name never panics: each of its 16 bytes becomes 0, and so its inode number, all other bytes of the directory stay, one block of it is logged and nothing else changes. |
| Removal.Remove | xv6-public/sysfile.c:229-240 | The entry is cleared and the links are dropped; at the last link and the last reference the inode goes, with exactly its own blocks; every other file is the same. It logs exactly one block of the directory, the inode block or blocks and, if the inode goes, the bitmap blocks of its blocks. |
| Removal.RemovalCost | xv6-public/sysfile.c:229-240 | That is at most two blocks, one more for a directory, and one for each bitmap block for data if the inode goes; with the regions in mkfs order the three kinds are disjoint, so that the sum is exact. |
| TruncDisk.RemoveExceeds | xv6-public/sysfile.c:196-250 | On every disk in mkfs order whose data blocks have bits in nine bitmap blocks, removing a file can log more than MAXOPBLOCKS blocks; with eight, and inodes in two blocks, removing an empty directory can. With fewer none does, by RemovalCost. |
| FileSystem.FileSystem.WriteTransaction | xv6-public/file.c:135-145 | One chunk: a splice that logs at most MAXOPBLOCKS blocks, none of them in the log if the regions are in mkfs order, and exactly WriteCost if no two free blocks share a bitmap block. It panics exactly when too few blocks are free. |
| FileSystem.FileSystem.FileWrite | xv6-public/file.c:118-156 | Chunk by chunk a splice of the prefix that was written; stops only at the size limit; every transaction logs at most MAXOPBLOCKS blocks, none of them in the log if the regions are in mkfs order. |
| Transactions.PlannedRun | xv6-public/log.c:126-233 | In any interleaving of operations that log only what was planned for them, within the bound and outside the log, every action is one the log allows, so that crash safety and the rest hold of these clients. |
| Transactions.WriteThroughLog | xv6-public/file.c:118-156 | Every run of the log in which operations carry out the transactions of a filewrite is a run of disciplined clients, so that the crash theorems hold of it. |
| LinkCount.RefsChange | xv6-public/sysfile.c:130-294 | nlink moves by the number of entries that start or stop counting. |
| LinkCount.AddNameInv | xv6-public/sysfile.c:150-164 | A new name for a file keeps the invariant: names unique, nlink equal to the number of entries other than "." in linked directories, ".." consistent. |
| LinkCount.AddDirInv | xv6-public/sysfile.c:276-290 | So does a new directory with its "." and "..". |
| LinkCount.DropNameInv | xv6-public/sysfile.c:228-240 | So does erasing a file's name. |
| LinkCount.EmptyDirCount | xv6-public/sysfile.c:219-226 | An empty directory's count is exactly one: only its own name. |
| LinkCount.HolderCount | xv6-public/sysfile.c:231-234 | A directory that holds another has a count of at least two, so it stays linked. |
| LinkCount.DropDirInv | xv6-public/sysfile.c:228-240 | Removing an empty directory keeps the invariant. |
| LinkCount.FreeNodeInv | xv6-public/fs.c:332-352 | So does freeing an inode without links. |
| Paths.ElementsOfJoin | xv6-public/fs.c:596-618 | Every list of names of 1 to DIRSIZ characters without "/" is the reading of some path. |
| Paths.ElementHere | xv6-public/fs.c:601-616 | An element of a path goes up to the next slash, cut to its first DIRSIZ characters. |
| Paths.PathStarts | xv6-public/fs.c:629-632 | A path that starts with a slash leads where its elements lead from the root, whatever the current directory is; every other path leads where they lead from the current directory. |
| Paths.WalkIsParentThenName | xv6-public/fs.c:625-657 | A walk is its parent walk followed by a lookup of the last name. |
| Paths.WalkLeads | xv6-public/fs.c:625-657 | From a linked directory no walk meets a free inode, every walk ends at an inode in use with a link, and every parent is linked. |
| Paths.WalkInUse | xv6-public/fs.c:625-657 | From any directory a walk that ends somewhere ends at an inode in use, and a parent is a directory. |
| Paths.ParentLinked | xv6-public/fs.c:625-657 | So a path resolved with a linked current directory never meets the "no type" panic. |
| Paths.WalkPanicsIff | xv6-public/fs.c:625-657 | From any inode in use, a walk meets the "no type" panic if and only if it climbs, by "." and ".." through directories that have been unlinked, to a parent that is free. |
| Paths.PathPanicsIff | xv6-public/fs.c:625-670 | The same for namei and nameiparent of any path, from any current directory; never for a path that starts with a slash. |
| Paths.FindsItself | xv6-public/fs.c:525-548 | A directory, linked or not, finds itself exactly under ".", and under ".." in the root. |
| Directories.UnlinkedInv | xv6-public/sysfile.c:196-250 | The result of unlink keeps the link invariant, whether or not the inode is freed. |
| Directories.WalkCanPanic | xv6-public/fs.c:309-310 | With a removed current directory it can: here the parent has been freed. |
| Directories.CreateUntypedIff | xv6-public/sysfile.c:253-294 | create meets that panic if and only if its whole path climbs to a free inode. |
| Directories.UnlinkUntypedIff | xv6-public/sysfile.c:196-250 | unlink does if and only if the path to the directory does. |
| Directories.LinkUntypedIff | xv6-public/sysfile.c:130-177 | link does if and only if its first path does or, when that leads to something other than a directory, the path to the second one's directory. |
| Directories.LinkStuckIff | xv6-public/sysfile.c:130-176 | Link waits forever for a lock it holds exactly when it is asked to add "." to a directory or ".." to the root, from any current directory. |
| Directories.LinkCanGetStuck | xv6-public/sysfile.c:155-158 | For instance link("a", ".") in a root directory that holds a file "a", a state that meets the link invariant. |
| Directories.LinkKeepsIff | xv6-public/sysfile.c:130-176 | Link keeps the link invariant if and only if the directory that gets the name is still linked. |
| Directories.CreateKeepsIff | xv6-public/sysfile.c:253-294 | Create keeps the link invariant if and only if its directory is still linked. |
| Directories.CreateCanBreak | xv6-public/sysfile.c:253-294 | For instance create("b") in a removed current directory breaks it. |
| PathEffects.UnlinkIff | xv6-public/sysfile.c:214-227 | In the directory that its path leads to, unlink succeeds if and only if the name is not "." or "..", an entry in use has it, and its inode is no directory or has nothing in use after its first two entries; otherwise nothing changes. |
| PathEffects.UnlinkDoes | xv6-public/sysfile.c:229-240 | What a successful unlink changes: the entry is emptied, its inode loses a link and is freed at the last link if nothing refers to it, the directory loses a link if that was a directory, and nothing else changes. |
| PathEffects.UnlinkedPath | xv6-public/sysfile.c:196-250 | After a successful unlink the path, which led somewhere, leads nowhere, and every path that still leads somewhere led to the same inode before. |
| PathEffects.CreateIff | xv6-public/sysfile.c:253-294 | How create ends in a linked directory: if an entry in use has the name, it succeeds if and only if a file is asked for and there is one, without changes; if none has, if and only if some inode is free. |
| PathEffects.CreatedPath | xv6-public/sysfile.c:253-294 | After a successful create the path leads to the inode, which is of the kind asked for; every path that led somewhere leads there still; a new directory has itself for "." and its parent for "..". |
| PathEffects.LinkIff | xv6-public/sysfile.c:130-177 | link succeeds if and only if the first path leads to something other than a directory, the second to a directory, and no entry in use of that has the name. |
| PathEffects.LinkedPath | xv6-public/sysfile.c:130-177 | After a successful link both paths lead to the inode, which has one more link, and every path that led somewhere leads there still. |
| Directories.Directories.constructor | xv6-public/mkfs.c:117-128 | A root directory and free inodes meet the link and cache invariants. |
| Directories.Directories.Iget | xv6-public/fs.c:242-272 | Adds one reference; a recycled cache entry is not valid. |
| Directories.Directories.Ilock | xv6-public/fs.c:288-312 | The copy is valid and locked; the inode is known to have a type. |
| Directories.Directories.Iput | xv6-public/fs.c:332-352 | Drops one reference, and frees the inode exactly when it has no link and this was the only reference. |
| Directories.Directories.Ialloc | xv6-public/fs.c:195-214 | Takes the first free inode number; fails exactly when none is free. |
| Directories.Directories.DirLookup | xv6-public/fs.c:525-548 | The first entry in use with that name, with one reference to its inode if that is in use. |
| Directories.Directories.DirLink | xv6-public/fs.c:552-578 | Writes the first empty slot, fails if the name is present, and never returns when the entry found is the locked directory itself. |
| Directories.Directories.SkipElem | xv6-public/fs.c:596-618 | Yields the first element of the rest of the path, cut to DIRSIZ, and stops exactly where the others begin. |
| Directories.Directories.Namex | xv6-public/fs.c:625-657 | Resolves the path as the walk over its elements does, from any referenced current directory; frees nothing; leaves one reference, to the result, or none; ends in the "no type" panic exactly when the walk meets a free inode. |
| Directories.Directories.IsDirEmpty | xv6-public/sysfile.c:180-192 | True exactly when nothing but the first two entries is in use. |
| Directories.Directories.Unlink | xv6-public/sysfile.c:196-250 | From any current directory, on every path that returns all references are given back and the invariant holds; the name goes, and the inode is freed exactly when its count reaches 0 and nobody refers to it. |
| Directories.Directories.Link | xv6-public/sysfile.c:130-176 | From any current directory, on every path that returns references balance; a failure restores the link count; after a success the invariant holds exactly if the directory was linked. |
| Directories.Directories.Create | xv6-public/sysfile.c:253-294 | From any current directory, returns the existing file or a new inode in the first free number, locked and referenced once; otherwise references balance. The invariant holds afterwards exactly if nothing was made or the directory was linked. |
| Directories.Directories.Mkdir | xv6-public/sysfile.c:353-366 | The same for a directory, with the reference given back. |
| VmSpec.LeafInv | xv6-public/vm.c:222-298 | Writing or moving a page outside the tables keeps every page with exactly one owner. |
| VmSpec.AddTableInv | xv6-public/vm.c:41-54 | So does adding a page table. |
| VmSpec.AddTableLookup | xv6-public/vm.c:41-54 | An empty table changes no directory's flat view. |
| VmSpec.SetPteLookup | xv6-public/vm.c:69-73 | Writing one entry changes exactly one page of exactly one directory's flat view. |
| VmSpec.SetPteInv | xv6-public/vm.c:69-73 | Writing one entry keeps exact ownership, with the old frame let go and the new one taken. |
| VmSpec.TakenReturned | xv6-public/vm.c:284-298 | Freeing a directory returns exactly the pages that were taken for it. |
| VmSpec.FreePop | xv6-public/kalloc.c:83-95 | The free list without its head is again a duplicate-free chain of exactly the free pages. |
| VmSpec.FreePush | xv6-public/kalloc.c:60-77 | So is the list with a page put in front. |
| VmSteps.LastPage | xv6-public/vm.c:66-67 | The last page of a range is right also for the range that ends at the top of the 32-bit space. |
| VmSteps.SkipRelations | xv6-public/vm.c:265-268 | Skipping a slot without a table is the same as removing its pages one by one. |
| VmSteps.KernelAll | xv6-public/vm.c:105-115 | The four kernel mappings together are physical memory at KERNBASE, read-only from KERNLINK to data, and the devices. |
| VmSteps.KernelRange | xv6-public/vm.c:105-136 | The four ranges do not meet, so mapping them never panics. |
| Vm.Vm.Kalloc | xv6-public/kalloc.c:83-95 | Takes a page off the free list, or reports that it is empty. |
| Vm.Vm.Kfree | xv6-public/kalloc.c:60-77 | The page joins the free list; no directory's view changes. |
| Vm.Vm.FreeRange | xv6-public/kalloc.c:47-54 | From pages that nobody owns, exactly the range goes to the free list. |
| Vm.Vm.WalkPgdir | xv6-public/vm.c:36-55 | The table for a page, taken from the free list if need be; every directory's view stays. |
| Vm.Vm.MapPages | xv6-public/vm.c:61-80 | The directory's view gains exactly the pages of the range, or a prefix of them: up to the page where tables run out, or the one that is mapped already, where it panics. Each user page gets its frame; other directories, and the contents of all frames, stay. |
| Vm.Vm.DeallocUvm | xv6-public/vm.c:256-279 | The view loses exactly the pages from newsz up to oldsz, and exactly their frames become free. |
| Vm.Vm.FreeVm | xv6-public/vm.c:284-298 | Everything the directory owned is free, and nothing else changes owner. |
| Vm.Vm.AllocUvm | xv6-public/vm.c:222-249 | Adds zeroed user pages for the range, which it does only if none was mapped. If memory runs out, no page of the range is mapped afterwards and all else looks as before; if none was mapped to begin with, only page tables may have been taken. It panics only at a page that was mapped. |
| Vm.Vm.SetupKvm | xv6-public/vm.c:119-136 | A directory with the kernel's mappings; on failure every page has the owner it had. |
| Vm.Vm.CopyUvm | xv6-public/vm.c:316-345 | A directory whose user pages have the same permissions and contents in frames of its own; if memory runs out every page has the owner it had. It panics only if a page below the size is missing, and makes a copy only if none is. |
| Vm.Vm.Uva2ka | xv6-public/vm.c:350-360 | The frame of a page exactly when it is present and for users; that frame is the page's own. Without a page table the null pointer case is told apart. |
| Vm.Vm.CopyOut | xv6-public/vm.c:366-386 | Exactly [va, va+done) of that directory's user memory changes, to the bytes given; done is everything on success, or else reaches up to the first page that is not the user's, with or without a page table. |
| Sched.StepInv | xv6-public/proc.c:75-502 | Every step of the scheduler, fork, exit, wait, sleep, wakeup, kill and the sleep locks keeps the invariant, for any number of processes, CPUs and locks. |
| Sched.RunKeeps | xv6-public/proc.c:75-502 | So it holds throughout every run. |
| Sched.StartInv | xv6-public/proc.c:122-155 | It holds when only init is there. |
| Sched.RunningOnOneCpu | xv6-public/proc.c:328-397 | Whenever ptable.lock is free, a process is RUNNING exactly when it is current on a CPU, and then on only one. |
| Sched.WaiterNotForgotten | xv6-public/proc.c:231-317 | No process sleeps in wait while it has a ZOMBIE child. |
| Sched.ExitWakes | xv6-public/proc.c:257-267 | Whoever exit hands a zombie to, parent or init, is awake afterwards. |
| Sched.NoOrphans | xv6-public/proc.c:260-267 | No live or zombie process except init has an exited parent. |
| Sched.ReapStep | xv6-public/proc.c:287-305 | A wait that returns a pid returns that of a process that has exited and that no wait has returned before, and empties its slot. |
| Sched.ReapedIff | xv6-public/proc.c:287-305 | The reaped pids are exactly those that waits of the run have returned. |
| Sched.ReapedOnce | xv6-public/proc.c:287-305 | No two waits of a run return the same pid, and each returns one that has exited. |
| Sched.OneHolder | xv6-public/sleeplock.c:22-53 | In every run holdingsleep is true exactly of the process that has taken the lock and not released it: of one if the lock is taken, of none if it is open. |
| Sched.LockSleeperNotForgotten | xv6-public/sleeplock.c:23-42 | Whenever a sleep lock's spinlock is free, nobody is asleep on the lock while it is unlocked. |
| SchedSteps.WaitIff | xv6-public/proc.c:285-316 | How a scan by wait ends: with a zombie child it reaps one; without, it returns -1 if and only if the process has no child or is killed, and otherwise leaves it SLEEPING on itself. Nobody else changes. |
| SchedSteps.WaitReturned | xv6-public/proc.c:278-317 | In every run a wait that returned no pid was made by a process that had no children or was killed, and one that went to sleep by a process with children, none of them a zombie. |
| SchedSteps.WakesAll | xv6-public/proc.c:463-470 | After wakeup on any channel nobody is asleep on it, whoever was is RUNNABLE, and nobody else has changed. |
| SchedSteps.WakesIff | xv6-public/proc.c:423-502 | A sleeping process becomes RUNNABLE exactly by a wakeup on its channel, a kill, or the exit of a child or of a process whose zombie children go to it; through every other step it stays asleep on the same channel. |
| SchedSteps.FallsAsleep | xv6-public/proc.c:423-459 | A process falls asleep only by its own step: in sleep, in acquiresleep on a taken lock, or in wait. |
| SchedSteps.SleepThenWakeup | xv6-public/proc.c:423-459 | sleep leaves the process SLEEPING on the channel it names, from where a wakeup makes it RUNNABLE; nobody else changes. |
| SchedSteps.KillDoes | xv6-public/proc.c:485-502 | kill marks the process and no sleep keeps it; nobody else changes. |
| SchedSteps.KilledIff | xv6-public/proc.c:485-502 | A slot is marked as killed by kill alone, whatever it holds, and the mark goes only when wait empties the slot. |
| SchedSteps.BornKilled | xv6-public/proc.c:485-502 | So a process can be killed before it is born: a kill that finds the pid 0 of an unused slot marks it, and the next fork that takes it has a killed child. |
| SchedSteps.ExitDoes | xv6-public/proc.c:255-270 | exit leaves a ZOMBIE with its pid and parent and gives exactly its children to init. |
| SchedSteps.AllocDoes | xv6-public/proc.c:75-93 | fork starts with an unused slot as an EMBRYO, with a pid that no process has and none has exited with. |
| SchedSteps.ForkDoes | xv6-public/proc.c:182-225 | At its end the child is RUNNABLE, the forking process is its parent, and no other process has its pid. |
| SchedSteps.ForkFailDoes | xv6-public/proc.c:194-199 | If it fails, the slot is UNUSED again, without a parent. |
| SchedSteps.YieldAndBack | xv6-public/proc.c:391-397 | A process that yields and is picked again next finds the whole state as it left it. |
| SchedSteps.ResumeDoes | xv6-public/proc.c:344-358 | A process that is picked again goes on where it was switched out, RUNNING on that CPU: outside these sections, or on its way to the lock it slept on. |
| SchedSteps.TakeDoes | xv6-public/sleeplock.c:22-32 | acquiresleep takes the lock, for the process that asks, exactly when it is open. |
| SchedSteps.FallDoes | xv6-public/sleeplock.c:26-28 | When it is taken the process goes to sleep on it, having let go of the spinlock. |
| SchedSteps.ReleaseDoes | xv6-public/sleeplock.c:34-42 | releasesleep, by the holder, opens it. |
| SchedSteps.CallsAdmitted | xv6-public/proc.c:231-502 | A process that runs outside these sections may make any of the calls whenever ptable.lock is free; exit exactly if it is not init, fork exactly with an unused slot. |
| SchedSteps.Progress | xv6-public/proc.c:328-459 | No deadlock, in any run: the CPU that holds ptable.lock can take a step; when none does every CPU can, unless its process wants back a spinlock, and then the CPU of that lock's holder can. |
| SchedSteps.StartLockRefs | xv6-public/proc.c:122-155 | What that assumes of the start holds when only init is there. |
| ProcTable.ProcTable.Wakeup1 | xv6-public/proc.c:463-470 | Exactly the sleepers on the channel become RUNNABLE. |
| ProcTable.ProcTable.AllocProc | xv6-public/proc.c:75-93 | The first UNUSED slot becomes an EMBRYO with a new pid; fails exactly when there is none. |
| ProcTable.ProcTable.Exit | xv6-public/proc.c:255-270 | The loop's result is the table the step system prescribes: parent woken, children to init, init woken if one is a zombie. |
| ProcTable.ProcTable.Kill | xv6-public/proc.c:485-502 | The first process with that pid is marked and runs again if it was asleep; fails exactly when there is none. |
| ProcTable.ProcTable.WaitScan | xv6-public/proc.c:286-311 | Reaps the first zombie child, or tells whether there are children at all. |
| PipeSpec.TestsMean | xv6-public/pipe.c:85-116 | The code's full and empty tests on the wrapping counters mean 512 and 0 bytes pending. |
| PipeSpec.PutInv | xv6-public/pipe.c:93 | Storing a byte keeps the ring equal to the pending part of the stream. |
| PipeSpec.GetInv | xv6-public/pipe.c:116 | So does fetching one. |
| PipeSpec.SleepStepIff | xv6-public/pipe.c:60-121 | A critical section leaves nobody asleep without reason if and only if it is not a killed writer filling the pipe over sleeping readers with more than 512 bytes. |
| PipeSpec.Stream | xv6-public/pipe.c:79-121 | In every interleaving the bytes delivered are a prefix of those accepted, at most 512 behind, and nwrite - nread mod 2^32 says by how many. |
| PipeSpec.WriteDoes | xv6-public/pipe.c:79-98 | A section of pipewrite accepts the first min(n, room) bytes in order; the call is done if and only if these are all, fails if and only if more are left and there is no reader or the process is killed, and sleeps otherwise. |
| PipeSpec.ReadDoes | xv6-public/pipe.c:101-121 | A section of piperead delivers the next min(n, pending) bytes of the stream, unless the pipe is empty with a writer, where it sleeps, or fails if killed. |
| PipeSpec.AcceptedIsWritten | xv6-public/pipe.c:79-98 | Over every run the stream accepted is the concatenation of those pieces of its writes. |
| PipeSpec.WholeCall | xv6-public/pipe.c:79-98 | The sections of one call put the front of its bytes into the pipe, in order and none twice, and all of them if and only if the call ends well. |
| PipeSpec.NobodyForgotten | xv6-public/pipe.c:60-121 | In runs where no section sees its process killed, no reader sleeps on a pipe that holds bytes or whose write end is closed, and no writer on one with room or without a reader. |
| PipeSpec.KillForgets | xv6-public/pipe.c:85-89 | A killed writer can leave a reader asleep on a full pipe. |
| FileTable.StepInv | xv6-public/file.c:26-80 | Every step of filealloc, filedup, fileclose, fdalloc, dup, close, fork, exit, pipe, pipeclose, kill and of the pipe code keeps the invariant, and none is one that panics or misuses a pipe. |
| FileTable.StartInv | xv6-public/file.c:20-23 | It holds when no file is open. |
| FileTable.RunNeverBad | xv6-public/file.c:44-80 | In every run filedup and fileclose find a count of at least 1, no call touches a freed pipe or a closed end, and no end is closed over a sleeper. |
| FileTable.CountsAreHolders | xv6-public/file.c:26-80 | In every run a file's reference count is the number of descriptors, in any process, and pending pointers that lead to it. |
| FileTable.CountNext | xv6-public/file.c:26-80 | How each step changes that number: by exactly what it adds to the count. |
| FileTable.DescriptorsLead | xv6-public/sysfile.c:22-54 | In every run a descriptor leads to an open file and, if that is a pipe end, to a pipe that exists and whose end is open. |
| FileTable.ClosingAllowed | xv6-public/pipe.c:60-75 | An end is closed only when nobody is asleep at it. |
| FileTable.PipeRun | xv6-public/pipe.c:60-121 | What happens to a pipe in any run of the processes is a run of the pipe alone, so that the theorems about pipes apply: their guards come from the reference counts. |
| FileTable.FreedUnused | xv6-public/pipe.c:70-72 | Once a pipe has been freed, no file is an end of it, nobody is about to close one, and nobody is in its code. |
| FileTable.NoPipeLeaks | xv6-public/pipe.c:70-72 | And a pipe stays allocated only while some file is an end of it or some process is about to close one. |
| FileTable.Table.FileAlloc | xv6-public/file.c:26-41 | Takes the first file with count 0, and fails exactly when there is none. |
| FileCalls.DupDoes | xv6-public/sysfile.c:56-68 | dup as a whole makes another descriptor for the same file, which has one reference more; nothing else changes. |
| FileCalls.CloseDoes | xv6-public/sysfile.c:105-115 | close of a file with other references takes one away and empties the slot; nothing else changes. |
| FileCalls.DupThenClose | xv6-public/sysfile.c:56-115 | Closing what dup has made leaves the whole state as it was. |
| FileCalls.LastCloseDoes | xv6-public/file.c:56-80 | The last close frees the file. |
| FileCalls.LastClosePipeDoes | xv6-public/pipe.c:59-75 | If it was a pipe end, that end is closed, the sleepers of the other end are woken, and with the other end closed already the pipe is gone; nothing else changes. |
| FileCalls.PipeDoes | xv6-public/sysfile.c:440-461 | pipe as a whole makes a pipe that did not exist, empty and open, and a descriptor for each end; nothing else changes. |
| FileCalls.WriteGoesIn | xv6-public/pipe.c:79-98 | A write through a descriptor for a write end goes into that pipe, as far as there is room, and into no other. |
| FileCalls.ReadTakesOut | xv6-public/pipe.c:101-121 | A read through one for a read end takes the next bytes of that pipe and of no other. |
| FileCalls.KillWakes | xv6-public/proc.c:485-502 | A kill wakes the process from any pipe it sleeps on, and nobody else. |
| FileCalls.ForkCopies | xv6-public/proc.c:207-209 | The loop of fork runs to its end, and then the child has exactly the descriptors of its parent, whose own are as before, as are those of all others. |
| FileCalls.ExitEmpties | xv6-public/proc.c:242-248 | The loop of exit runs to its end, through the closing of pipes, and then the process has no descriptors; all others keep theirs. |
| Pipe.Pipe.constructor | xv6-public/pipe.c:33-36 | An empty pipe, open at both ends. |
| Pipe.Pipe.Write | xv6-public/pipe.c:79-98 | The loop has the effect and the result of the section the runs are made of: the stream grows by exactly the first min(n, room) bytes. |
| Pipe.Pipe.Read | xv6-public/pipe.c:101-121 | So has this one: it returns the next min(n, pending) bytes of the stream, or sleeps or fails with none. |
| Pipe.Pipe.CloseEnd | xv6-public/pipe.c:60-75 | Closing one end wakes the sleepers of the other, and frees the pipe exactly when both are closed. |
| FreeList.InsertOrdered | xv6-public/umalloc.c:33-42 | Freeing keeps the list in address order with a gap between any two blocks. |
| FreeList.InsertUnits | xv6-public/umalloc.c:33-42 | The free units grow by the size of the block, whatever was merged. |
| FreeList.InsertCovered | xv6-public/umalloc.c:33-42 | Exactly the units of the block join the free ones. |
| FreeList.TakeCovered | xv6-public/umalloc.c:75-85 | Exactly the units handed out leave the free ones. |
| FreeList.TakeThenInsert | xv6-public/umalloc.c:25-90 | Freeing what was just allocated restores the list. |
| FreeList.FullScan | xv6-public/umalloc.c:74-88 | A round from freep fails to find a block exactly when no free block is large enough. |
| FreeList.NextFitFirst | xv6-public/umalloc.c:74-88 | The block found is the first one round the circle that is large enough. |
| Heap.RoundingIff | xv6-public/umalloc.c:69 | The block has room for the request if and only if rounding up does not wrap in 32 bits. |
| Heap.GrantIff | xv6-public/umalloc.c:54 | For less than 2^31 bytes sbrk succeeds if and only if there are frames and the new size stays below KERNBASE. When it succeeds, the process holds the units that morecore then frees if and only if they are less than 2^31 bytes; for more it does not grow and may shrink, and when sbrk reports a failure then, it holds nothing any more. |
| Heap.RoomIff | xv6-public/umalloc.c:54-69 | Both 32-bit computations, the rounding and the product passed to sbrk as a signed number, are right if and only if the request is at most 2^31 - 16 bytes. |
| Heap.RoomCanWrap | xv6-public/umalloc.c:69 | A request for 2^32 - 1 bytes gets a bare header. |
| Heap.AskCanBeZero | xv6-public/umalloc.c:54 | A request for 0xFFFFFFF8 bytes asks sbrk for nothing, and sbrk grants that. |
| Heap.AskCanShrink | xv6-public/umalloc.c:54 | A request for 0xFFFFF000 bytes makes sbrk give memory back. |
| Heap.AskCanTakeAll | xv6-public/umalloc.c:54 | A request for 0xFFFFBFF8 bytes makes sbrk take everything from a process of 16384 bytes, and report a failure. |
| Heap.ConservedFree | xv6-public/umalloc.c:25-44 | Live and free blocks stay disjoint and together what was obtained, with equal unit counts. |
| Heap.ConservedTake | xv6-public/umalloc.c:75-85 | So they do when a block is handed out. |
| Heap.ConservedGrow | xv6-public/umalloc.c:47-61 | And when morecore obtains more. |
| Heap.FreeRepresents | xv6-public/umalloc.c:33-42 | The header updates of free turn the circle for the old list into the circle for the new one. |
| Heap.TakeRepresents | xv6-public/umalloc.c:75-85 | So do those of malloc. |
| Heap.Allocator.FindHome | xv6-public/umalloc.c:30-32 | The search terminates at the free block below, with the next free block above, past the wrap point too. |
| Heap.Allocator.Free | xv6-public/umalloc.c:25-44 | The block leaves the live ones and is inserted where it belongs, merged with what it touches; all invariants are kept. |
| Heap.Allocator.Morecore | xv6-public/umalloc.c:47-61 | Exactly what sbrk appears to grant joins the free list, at least 4096 units, or nothing changes. |
| Heap.Allocator.Search | xv6-public/umalloc.c:74-89 | The loop terminates: next fit from freep, one morecore at most, and failure only when no block fits and sbrk refuses. |
| Heap.Allocator.Malloc | xv6-public/umalloc.c:64-90 | The block handed out is the end of the first free block that fits, and becomes live; all invariants are kept. The process then holds all of it, with room for the request, exactly when that is at most 2^31 - 16 bytes. |
| KlogSpec.AppendWindow | xv6-public/klog.c:182-199 | A ring refines a queue cut to its last 256 entries. |
| KlogSpec.AppendInv | xv6-public/klog.c:182-199 | Numbers stay unique across CPUs and increasing on each. |
| KlogSpec.Pigeonhole | xv6-public/klog.c:255-285 | At most n distinct numbers lie in the first n from the minimum, and all n do exactly when there is no gap. |
| KlogSpec.PickCount | xv6-public/klog.c:255-285 | A snapshot picks exactly min(total, max) entries. |
| KlogSpec.NoGapRecent | xv6-public/klog.c:255-285 | They are the most recent when the numbers to be skipped have no gap. |
| KlogSpec.ConsecutiveRecent | xv6-public/klog.c:255-285 | In particular when all retained numbers are consecutive. |
| KlogSpec.RecentIff | xv6-public/klog.c:255-285 | Of more entries than it may return, a snapshot gives the most recent if and only if its limit is reached at the end of a CPU's ring and the later CPUs hold nothing newer above the bound. |
| KlogSpec.AllRecent | xv6-public/klog.c:255-285 | And of no more than that it gives all. |
| KlogSpec.UnwrappedRecent | xv6-public/klog.c:255-285 | In particular until some ring has wrapped since the last clear. |
| Klog.GapLosesNewest | xv6-public/klog.c:255-285 | After one entry on CPU 0 and 260 on CPU 1, a snapshot of 64, the number that the log device asks for, loses the newest. |
| Klog.ClearedOutOfRange | xv6-public/klog.c:287-296 | Right after a clear the sort runs beyond what was collected, whatever the limit. |
| Klog.BubbleSort | xv6-public/klog.c:287-296 | The entries are rearranged into strictly increasing order, and nothing beyond them changes. |
| Klog.Klog.constructor | xv6-public/klog.c:40-51 | Empty rings meet the invariant. |
| Klog.Klog.Log | xv6-public/klog.c:182-199 | The CPU's window gains the entry under the next number, losing its oldest when full; other CPUs keep theirs; an unknown CPU is ignored. |
| Klog.Klog.Survey | xv6-public/klog.c:231-253 | The first pass finds the number of retained entries and the least number. |
| Klog.Klog.Collect | xv6-public/klog.c:260-285 | The second pass collects the first max entries at or above the bound, and none for a negative max. |
| Klog.Klog.Snapshot | xv6-public/klog.c:223-299 | Exactly min(total, max) retained entries in strictly increasing order, the ones the two passes pick. The sort's unsigned bounds stay within them if and only if something is retained and max_entries is at least 1. |
| KlogRace.ViewsInv | xv6-public/klog.c:231-285 | With other CPUs logging between its visits, what a pass sees is a state that the log could have been in: every ring in order, all numbers distinct. |
| KlogRace.ViewsAsMany | xv6-public/klog.c:260-285 | And from one pass to the next no ring loses entries at or above any number, however many are overwritten. |
| KlogRace.CaughtEnough | xv6-public/klog.c:223-285 | So for any calls between the visits, the second pass collects at least min(total, max) entries, by the bound and total of the first, with distinct numbers. |
| Klog.Klog.SnapshotRacing | xv6-public/klog.c:223-299 | The whole snapshot with any calls between its visits: those entries in strictly increasing order, and the sort stays within them if and only if the first pass found something and max_entries is at least 1. |
| Klog.Klog.Clear | xv6-public/klog.c:303-315 | Nothing is retained, and numbers are not reused. |
| ShellSpec.ParseIff | xv6-public/sh.c:328-446 | The parser accepts exactly the lines of the grammar, which is stated as a relation between tokens and trees, and builds the tree that the grammar gives. |
| ShellSpec.OneReading | xv6-public/sh.c:328-446 | So no line of the grammar has two readings. |
| ShellSpec.LexIff | xv6-public/sh.c:259-308 | The lexer finds exactly the tokens that the line spells: blanks anywhere around them, words up to the next blank or symbol, ">>" as one token. |
| ShellSpec.LexRender | xv6-public/sh.c:266-308 | Tokens written out with blanks between them are read back. |
| ShellSpec.RoundTrip | xv6-public/sh.c:328-446 | Parsing the printed text of any command tree with good words and at most nine arguments per command returns that tree, and that text is a C string. |
| ShellSpec.PrintableIff | xv6-public/sh.c:328-446 | Those trees are exactly the ones the parser can build from a C string. |
| Shell.EndsOutside | xv6-public/sh.c:450-493 | The position after a word is never inside a word. |
| Shell.Parser.GetToken | xv6-public/sh.c:266-308 | Steps past exactly the next token, says its kind, and delimits a word by its maximal span. |
| Shell.Parser.Peek | xv6-public/sh.c:311-320 | Tells whether the next token begins with one of the symbols, and consumes only blanks. |
| Shell.Parser.ParseRedirs | xv6-public/sh.c:375-397 | The loop reads what the grammar prescribes, or fails as it does; the cursor stays in the line. |
| Shell.Parser.ParseExec | xv6-public/sh.c:416-446 | The same for a command with its arguments and redirections. |
| Shell.Parser.ParseBlock | xv6-public/sh.c:400-413 | The same for a block. |
| Shell.Parser.ParsePipe | xv6-public/sh.c:362-372 | The same for a pipeline. |
| Shell.Parser.ParseLine | xv6-public/sh.c:345-359 | The same for a line; all of them terminate on every input. |
| Shell.Parser.NulTerminate | xv6-public/sh.c:450-493 | Writes a NUL after every word of the command and nowhere else. |
| Shell.Parser.ParseCmd | xv6-public/sh.c:328-342 | Agrees with the parse of the line's tokens, and on success every word is a C string equal to its token's slice of the line. |
| Grep.FirstItem | xv6-public/grep.c:85-106 | An item takes some front part of the text it stands for, and the rest of the pattern matches after it. |
| Grep.Match | xv6-public/grep.c:73-82 | True exactly when the pattern matches somewhere: at the front under "^", else at any position including the end. |
| Grep.MatchHere | xv6-public/grep.c:85-96 | True exactly when some cut of the text into pieces fits the items, up to the end under a final "$". |
| Grep.MatchStar | xv6-public/grep.c:99-106 | True exactly when some run of matching characters is followed by a match of the rest. |
| Grep.PlainIsSubstring | xv6-public/grep.c:73-96 | A pattern without special characters is found exactly where it occurs in the text. |
| Grep.PlainAtFront | xv6-public/grep.c:73-82 | After "^" it must be at the front of the text. |
| Grep.PlainAtEnd | xv6-public/grep.c:85-96 | Before "$" it must be at the end. |
| Grep.StarIsRun | xv6-public/grep.c:85-106 | A starred character between "^" and "$" matches exactly the texts of that character alone, and a starred "." every text. |

## Left out

- FileSystem.TransactionBound: bounds the accounting of a write; that writei stays within the accounting is part of the contract of FileSystem.FileSystem.Writei.
- Removal.Remove: the directory entry is given by its offset, and the reference to the directory that unlink drops is not the last one to a directory that has itself been unlinked.
- TruncDisk.TruncExceeds: is about itrunc alone; TruncDisk.RemoveExceeds is about unlink.
- Directories.Directories.Iget: no fixed number of cache slots, so "iget: no inodes" does not occur; references and validity are kept per inode number.
- Directories.Directories.Namex: a walk that meets a free inode ends there, as the panic that the next ilock raises.
- Directories.Directories.Link: says nothing about references and locks when the call never returns.
- Directories.Directories.Create: says nothing about the state after a panic.
- Klog.Klog.Snapshot: assumes no logging between its passes, which Klog.Klog.SnapshotRacing does not, and counters that have not wrapped.
- Klog.Klog.SnapshotRacing: no clear between the passes, after which fewer entries may be left than the first pass found; a call of klog_printf is one step.
- Klog.Klog.Log: sequence numbers that have not wrapped.
- Vm.Vm.MapPages: a range is not empty and does not wrap past the top of the address space, as in every call the kernel makes.
- Vm.Vm.CopyUvm: the size is at most KERNBASE, as that of every process is.
- Vm.Vm.DeallocUvm: the entry is cleared before its frame is freed, while the code frees first; nothing can observe the difference.
- Heap.Allocator.Malloc: whether the kernel has frames is a parameter; the process size is a whole number of headers, and what other code does between calls is not modelled.
- The bytes of the bitmap and of on-disk inodes: both are typed sequences here, and a directory is a sequence of entries; the packing of inode fields, 16-bit inode numbers and 16-bit link counts are not modelled.
- Device files, and more than one device for files; the buffer cache does distinguish devices.
- FileTable.StepInv: files on inodes and devices are of one kind that is not a pipe, and the iput of the last close is not part of this step system; that a process asleep in a pipe does nothing else is a guard of its steps.
- Sleep and wakeup inside the log, the buffer cache and the file system: waiting appears as a step that is not enabled.
- Memory ordering, interrupts and the spinlocks themselves.
- Context switch registers, trap frames, segment descriptors, exec, and the contents of kernel stacks.
- switchuvm, loaduvm, inituvm and clearpteu: no allocation logic of their own.
- The panic on physical page 0 in deallocuvm: page numbers are not ordered against the end of the kernel here.
- klog message formatting, time stamps and the dropped counter.
- Running parsed commands, and grep's reading of lines.
- mkfs: its layout is assumed, except for the log size.
