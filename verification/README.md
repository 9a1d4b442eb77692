# Verification of xv6-riscv

A model in Dafny of the hard parts of this xv6-riscv, a teaching kernel whose C is being
replaced by Zig, with proofs of what they are for. State is modelled as the code keeps it:
methods over fields and arrays where the code updates in place, state machines where
threads, devices or crashes interleave, functions where the code only computes. Methods
are proved against functions on values, and the properties of the system are proved about
these.

Check the whole project with `dafny verify dfyconfig.toml`.

| modules | what they cover |
|---|---|
| Common, Blocks | shared types; blocks as bytes, words and bits |
| LogFormat, LogReplay, LogMachine, LogSafety, LogTheorems, LogBuffers, LogCode, LogRefine, BufferCache | the write-ahead log and the buffer cache: crash atomicity over all interleavings, the code that does it, and that both write the same |
| FsModel, FsTrees, FsGrow, FsTrunc, FsCode, FsRace, FsIo, FsImage, FsRun | block allocation, the three-level block map, reading, writing and truncating, and the image builder |
| InodeTable, InodeCode | the in-memory inode table under concurrent use |
| Scheduler, SchedulerLaws, Interrupts | context switching, interrupts and spin locks |
| ExitWait, ExitLaws, ExitProgress | exit, wait, fork, sleep, wakeup and kill, interleaved |
| PageTables, TableCount, VmCode, VmUser, VmFork, VmCopy | Sv39 page tables, user memory, fork's copy, copying across the user boundary |
| PageRuns, Umalloc | the kernel's page allocator and the user allocator |
| Virtio, VirtioData | the disk driver against a device that follows sections 2.6 and 5.2 of the Virtual I/O Device (VIRTIO) specification, version 1.1 |
| Pipe, Grep | pipes, and the regular expressions of grep |
| ShellSyntax, ShellComplete, ShellNodes, ShellFiles, ShellParser, ShellTokens, ShellPrint, ShellPieces, ShellRoundTrip, ShellExact, ShellQuotes | the shell's tokenizer, parser and printer |

## Findings

Properties that one would expect and that the code does not have, each with an input that
shows it and the exact condition under which the code has it.

- log_write can panic within its budget: LOGSIZE blocks are promised to operations and the
  image has LOGSIZE log blocks, one of them the header. It never does exactly when the log
  area is larger than LOGSIZE (LogTheorems.LogCapacity).
- With such a log area the commit can find all buffers pinned, because NBUF equals LOGSIZE;
  it never does exactly when the log area has at most NBUF blocks (LogBuffers.BufferCapacity).
  No size of the log area avoids both.
- A killed pipe writer can leave a reader asleep at a pipe with data (Pipe.KilledWriter); when,
  exactly, is in Pipe.Channel.Write.
- A pipe reader without room for a byte takes it out of the pipe all the same (Pipe.LostByte);
  when, exactly, is in Pipe.Channel.Read.
- A failed alloc from size 0 keeps the pages it had mapped (VmUser.AllocKeeps), because dealloc
  does nothing when no memory would remain; when, exactly, is in VmUser.Alloc.
- malloc of 2^31 bytes or more, header included, asks sbrk for less than it then links
  (Umalloc.SbrkWraps, Umalloc.SbrkExact).
- A fork that cannot have even its first page panics instead of failing, because copy's
  errdefer calls unmap with no pages (VmFork.CopyPanics); when, exactly, is in VmFork.Copy.
- An inode that iput has freed on disk and not yet let go of can be allocated again; if it is then
  given up without links it stays allocated on disk, because the second iput finds two references
  and the first does not look again (InodeCode.LeakedInode). A last reference that goes leaves an
  inode without links exactly in this case (InodeTable.LastPutLinked).
- push_off of kernel/SpinLock.zig forgets that interrupts were on (Interrupts.LeftOff); when
  they come back, exactly, is Interrupts.Restored.
- The shell's printer loses parentheses around a single command (ShellExact.ParensLost) and
  quotation marks (ShellQuotes.QuotesLost); which trees come back, exactly, is
  ShellQuotes.ComesBack.
- bmap's doubly-indirect path does not check two allocations; alone it does no harm
  (FsCode.FileSystem.MapDouble), but with another process freeing a block between two of them
  it stores an entry in block 0 (FsRace.BootBlockWritten); when, exactly, is
  FsRace.MapAmongOthers, and FsRace.MapAmongTruncations in terms of what the call finds.
- parseList ends a list at an unexpected token without the pipeline before it; parseRoot then
  fails its assertion, so no input is accepted with a command missing (ShellComplete.ParseExact).

## Model

| member | source | states |
|---|---|---|
| LogFormat.HeadRoundTrip | kernel/log.c:87-114 | write_head and read_head are inverse: the encoded header decodes to the list it was made from, whatever the block held before, and its other words stay |
| LogFormat.AbsorbGood | kernel/log.c:215-235 | absorbing or appending a block keeps the list of logged blocks distinct, within the log and outside the log area |
| LogReplay.RecoverAt | kernel/log.c:69-123 | block by block, what recovery makes of a disk: logged blocks come from their log copies, all others stay |
| LogReplay.RecoverErases | kernel/log.c:117-123 | recovery leaves an empty header |
| LogReplay.RecoverIdempotent | kernel/log.c:117-123 | recovering twice is recovering once |
| LogReplay.RecoverPrefixRecovers | kernel/log.c:69-123 | a crash after any number of recovery's own writes, recovered again, ends in the same disk |
| LogReplay.CommitAtomic | kernel/log.c:179-203 | a crash after any number of commit's writes recovers to the old disk up to the header write, and to the whole new one after it |
| LogReplay.NothingToCommit | kernel/log.c:194-203 | with nothing logged there is nothing for commit to do |
| LogSafety.RunInv | kernel/log.c:127-235 | the invariant of log, disk and cache in every state of every run: all interleavings of operations, commits, crashes and recoveries |
| LogTheorems.CrashAtomicity | kernel/log.c:117-203 | whenever the power fails, recovery gives every home block the contents of the last committed log_write to it, and nothing else |
| LogTheorems.WholeOperations | kernel/log.c:127-175 | of two log_write calls of one operation either both are committed or neither, and only after the operation has ended |
| LogTheorems.Durability | kernel/log.c:194-203 | what is committed stays committed through every later step and crash |
| LogTheorems.IdleInstalled | kernel/log.c:147-203 | whenever no operation and no commit is running the log is empty and every log_write call is durable and at home: the last end_op leaves nothing behind |
| LogTheorems.CommitInstallsAll | kernel/log.c:194-203 | when commit is over, and when the log is empty, every home block on disk holds its last logged contents |
| LogTheorems.CacheCoherence | kernel/bio.c:59-137 | whoever holds a buffer sees the last contents logged for its block, through recycling, pinning and commits |
| LogTheorems.CachedOnceAndPinned | kernel/bio.c:59-151 | a block is cached at most once, and a buffer newer than the disk is never recycled |
| LogTheorems.GroupCommit | kernel/log.c:127-175 | the log never promises more than LOGSIZE blocks to running operations, and no operation runs during a commit |
| LogTheorems.BigLogNeverOverflows | kernel/log.c:215-235 | with more than LOGSIZE log blocks log_write never panics with "too big a transaction" |
| LogTheorems.SmallLogOverflows | kernel/log.c:215-235 | with LOGSIZE or fewer there is a run in which it does |
| LogTheorems.LogCapacity | Build/Fs.zig:154-154 | log_write never panics exactly when the log area has more than LOGSIZE blocks; the image has LOGSIZE |
| LogBuffers.BufferCapacity | kernel/bio.c:59-89 | a commit with no other reader about always gets its buffers exactly when the log area has at most NBUF blocks, so no log area is safe from both panics |
| LogBuffers.SmallLogNeverStarves | kernel/bio.c:59-89 | with at most NBUF log blocks some buffer is unpinned whenever nobody uses any |
| LogBuffers.BigLogStarves | kernel/log.c:179-191 | with more there is a run in which write_log's first bread finds all buffers pinned |
| LogRefine.CommitIsCode | kernel/log.c:179-203 | in every run of the machine, while a commit goes on and whatever other threads do, the disk is the one it began with after the first of the writes that LogCode.Log.Commit makes |
| LogRefine.RecoveryIsCode | kernel/log.c:69-123 | the same for recovery and LogCode.Log.RecoverFromLog, up to the recovered disk |
| LogCode.Log.BeginOp | kernel/log.c:127-142 | goes ahead exactly if no commit runs and the log has room for MAXOPBLOCKS more per operation |
| LogCode.Log.LogWrite | kernel/log.c:215-235 | absorbs or appends the block and pins its contents; both panics, exactly |
| LogCode.Log.WriteLog | kernel/log.c:179-191 | the disk after copying the pinned blocks to the log, write by write |
| LogCode.Log.WriteHead | kernel/log.c:103-114 | the one header write |
| LogCode.Log.ReadHead | kernel/log.c:87-97 | the list in memory is the list on disk |
| LogCode.Log.InstallTrans | kernel/log.c:69-83 | the disk after copying the log home, write by write; nothing stays pinned when not recovering |
| LogCode.Log.Commit | kernel/log.c:194-203 | home blocks end with the pinned contents, by exactly the writes that CommitAtomic cuts anywhere |
| LogCode.Log.RecoverFromLog | kernel/log.c:117-123 | the disk becomes Recover of the disk, by exactly the writes that RecoverPrefixRecovers cuts anywhere |
| LogCode.Log.EndOp | kernel/log.c:147-175 | the last operation out commits everything, others nothing; the panic, exactly |
| BufferCache.Unlink | kernel/bio.c:117-137 | taking a buffer out of the doubly linked list leaves a well-linked list of the others in order |
| BufferCache.LinkFront | kernel/bio.c:117-137 | linking it behind the head puts it first |
| BufferCache.ToFront | kernel/bio.c:117-137 | brelse's six pointer writes move the buffer to the front and keep all others in order |
| BufferCache.Cache.constructor | kernel/bio.c:37-53 | all buffers linked, the last one first |
| BufferCache.Cache.FindCached | kernel/bio.c:59-75 | finds the block if any buffer caches it |
| BufferCache.Cache.FindUnused | kernel/bio.c:76-87 | the least recently used unused buffer, or none is unused |
| BufferCache.Cache.Bget | kernel/bio.c:59-89 | a hit shares the buffer; a miss recycles the least recently used unused one; the panic only when all are in use |
| BufferCache.Cache.Brelse | kernel/bio.c:117-137 | a buffer no longer in use becomes the most recently used |
| BufferCache.Cache.Bpin | kernel/bio.c:139-144 | one more reference |
| BufferCache.Cache.Bunpin | kernel/bio.c:146-151 | one reference less |
| FsModel.DataSlotNumbers | kernel/fs.c:383-444 | block numbers of a file and slots for data are one to one: direct addresses, then the single table, then the tables of the double one in order |
| FsRun.Ownership | kernel/fs.c:66-105 | in every consistent file system no block is reached twice, every reached block is a data block, and the free map marks exactly these and the metadata |
| FsRun.TruncFiles | kernel/fs.c:449-498 | truncation empties one file and leaves all others as they are |
| FsRun.Do | kernel/fs.c:449-584 | one call of readi, writei or itrunc answers and changes the sequence of file contents as the abstract call does: return value, bytes read, and how far a write comes |
| FsRun.Run | kernel/fs.c:449-584 | so does any sequence of calls, every state in between consistent and without holes |
| FsRun.Mkfs | Build/Fs.zig:85-150 | the built image is a consistent file system that holds exactly the files appended to it; it fails exactly if a file is too long or the blocks and tables of all files do not fit |
| FsCode.FileSystem.constructor | kernel/fs.c:31-38 | a file system is taken over as it is |
| FsCode.FileSystem.Balloc | kernel/fs.c:66-88 | the first free block, marked and zeroed, or there is none |
| FsCode.FileSystem.Bfree | kernel/fs.c:92-105 | the block's mark goes; the panic exactly if it was free |
| FsCode.FileSystem.FieldOrNew | kernel/fs.c:388-396 | in any state: the address in the inode, or the first free block stored there, or 0 on a full disk |
| FsCode.FileSystem.EntryOrNew | kernel/fs.c:407-418 | the same for an entry of a table block, block 0 included |
| FsCode.FileSystem.FillField | kernel/fs.c:388-396 | a direct address or the root of a table tree, allocated if missing; ownership is kept |
| FsCode.FileSystem.FillEntry | kernel/fs.c:407-418 | an entry of a table, allocated if missing; ownership is kept |
| FsCode.FileSystem.Bmap | kernel/fs.c:383-444 | the block of the bn-th block of a file through all three levels; what was mapped stays; 0 only when the disk is full |
| FsCode.FileSystem.MapSingle | kernel/fs.c:399-420 | the singly-indirect path |
| FsCode.FileSystem.MapDouble | kernel/fs.c:422-441 | the doubly-indirect path, whose unchecked allocations do no harm while nobody else frees a block |
| FsRace.MapAmongOthers | kernel/fs.c:422-441 | the same path with any steps of other processes between its three allocations: some ownership is consistent afterwards, and the block returned is the file's, exactly unless a missing table found the disk full and a later allocation did not; then a block is marked and in no file |
| FsRace.MapAmongTruncations | kernel/fs.c:422-498 | when the others truncate files, the same condition over the state the path finds: which tables are missing, whether no block or one is free, and whether the files truncated before the second and before the third allocation have blocks |
| FsRace.BootBlockWritten | kernel/fs.c:422-441 | a run from a consistent full disk, with one truncation in between, that stores an entry in block 0 and loses a block |
| FsCode.FileSystem.Itrunc | kernel/fs.c:449-498 | every block of the inode, data and tables, is freed once and no other; marks, entries and data blocks, exactly |
| FsCode.FileSystem.FreeDirect | kernel/fs.c:455-460 | the direct blocks, as far as the loop has come |
| FsCode.FileSystem.FreeSingle | kernel/fs.c:463-473 | the singly-indirect tree |
| FsCode.FileSystem.FreeDouble | kernel/fs.c:476-494 | the doubly-indirect tree, tables last |
| FsIo.Readi | kernel/fs.c:517-541 | the bytes of the file from off on, up to its end; the two early returns; a failing copy gives -1 after all whole chunks before it |
| FsIo.Writei | kernel/fs.c:551-584 | the file is spliced with the first r bytes and no other file changes; r is all whole chunks before a failing copy unless the disk is full; -1 exactly when out of range |
| FsIo.WrittenIsSplice | kernel/fs.c:551-584 | blocks written chunk by chunk read back as one splice, across block boundaries |
| FsIo.WrittenNoHoles | kernel/fs.c:551-584 | a write leaves no block below the size unmapped |
| FsImage.BitmapFinishes | Build/Fs.zig:343-353 | a free map of the first freeblock bits is right for an image filled from the front |
| FsImage.TrimMissing | Build/Fs.zig:251-320 | what a file lacks for its next block is the difference of two closed formulas: blocks and tables of a file of m blocks |
| FsImage.AppendIsConcat | Build/Fs.zig:323-340 | sector by sector, appending concatenates |
| FsImage.Image.constructor | Build/Fs.zig:173-187 | an empty image |
| FsImage.Image.AllocInode | Build/Fs.zig:235-241 | the next inode |
| FsImage.Image.Bitmap | Build/Fs.zig:251-320 | the sector of a file's block, taken from the end of the used ones if missing, through all three levels; fails exactly if the missing tables and the block do not fit below BITS |
| FsImage.Image.Append | Build/Fs.zig:323-340 | the file grows by the bytes, and no other changes; it takes exactly the new blocks and tables, and fails exactly if they do not fit |
| FsImage.Image.WriteSector | Build/Fs.zig:195-203 | one sector |
| FsImage.Image.WriteBitmap | Build/Fs.zig:343-353 | the image becomes consistent |
| InodeTable.RunInv | kernel/fs.c:199-362 | the invariant of inode table and disk in every state of every run of iget, idup, ilock, iupdate, iunlock, iput and ialloc, interleaved |
| InodeTable.HolderOwnsReference | kernel/fs.c:282-327 | an entry's count is the number of its references, and whoever has it locked owns one |
| InodeTable.IputNeverBlocks | kernel/fs.c:337-362 | with the last reference to a valid inode without links, iput's acquiresleep under the table lock never waits |
| InodeTable.IputBegins | kernel/fs.c:337-362 | whoever has a reference can put it: exactly with the last one to a valid inode without links the freeing starts, else the reference goes |
| InodeTable.LastPutLinked | kernel/fs.c:337-362 | when the last reference to a valid inode goes, the inode on disk is without links exactly if this iput had freed it before and it was taken up again without links; otherwise it has links |
| InodeTable.ClearedOnDisk | kernel/fs.c:337-362 | an iput past its iupdate has made this inode free on disk, at an earlier step of the run |
| InodeTable.ValidIsOnDisk | kernel/fs.c:293-317 | a valid entry that nobody is changing is what the disk says, and allocated |
| InodeTable.InTableOnce | kernel/fs.c:247-277 | no inode is in the table twice |
| InodeTable.ReuseIsSafe | kernel/fs.c:337-362 | while iput frees an inode its entry is not reused, and not valid with a stale copy |
| InodeTable.FreedUnlinked | kernel/fs.c:337-362 | an inode becomes free on disk only through its last reference in iput, and without links |
| InodeCode.Inodes.constructor | kernel/fs.c:181-190 | no references, and the disk as given |
| InodeCode.Inodes.Find | kernel/fs.c:247-277 | the entry of the inode, or the first unused one, or neither |
| InodeCode.Inodes.Iget | kernel/fs.c:247-277 | a step of the machine that gives a reference and changes no other entry; fails exactly when the table is full and has no entry of the inode |
| InodeCode.Inodes.Claim | kernel/fs.c:199-219 | the first free inode gets the type, without links; fails exactly when there is none |
| InodeCode.Inodes.Ilock | kernel/fs.c:293-317 | steps that end locked, valid and as on disk; the panic exactly for a free inode |
| InodeCode.Inodes.Iunlock | kernel/fs.c:320-327 | the sleep lock is free, and nothing else changes |
| InodeCode.Inodes.Iput | kernel/fs.c:337-362 | steps that drop the reference, and free the inode on disk exactly if it was the last, the entry is valid and there are no links; no other entry and nothing else on disk changes |
| InodeCode.Inodes.PutFree | kernel/fs.c:343-358 | the freeing branch, as one run |
| InodeCode.LeakedInode | kernel/fs.c:337-362 | calls that leave an inode allocated on disk, without links and without references |
| Scheduler.RunInv | kernel/proc.zig:421-560 | the invariant of CPUs and process table in every state of every run |
| Scheduler.OneCpuPerProcess | kernel/proc.zig:421-447 | no process is current on two CPUs and no kernel stack is used by two |
| Scheduler.RunningIsCurrent | kernel/proc.zig:421-447 | a process is running exactly if it is some CPU's current one |
| Scheduler.SchedNeverPanics | kernel/proc.zig:456-468 | none of sched's four panics: whoever calls it holds its own lock and no other, is not running, and has interrupts off; noff counts the locks of a CPU also across swtch |
| Scheduler.PopNeverPanics | kernel/spinlock.c:99-110 | neither of pop_off's panics, whoever releases a lock |
| Interrupts.Cpu.PushOffC | kernel/spinlock.c:88-97 | one call |
| Interrupts.Cpu.PushOffZig | kernel/SpinLock.zig:72-78 | one call, which looks at the enable bit after clearing it |
| Interrupts.Cpu.PopOff | kernel/spinlock.c:99-110 | one call; the panics, exactly |
| Interrupts.Matched | kernel/spinlock.c:84-110 | nested calls never panic, interrupts are off while a lock is held, and what the last pop_off will bring back is what there was unless lost |
| Interrupts.Restored | kernel/SpinLock.zig:69-88 | when no lock is held any more interrupts are as before, exactly unless they were on and some outermost push_off was that of kernel/SpinLock.zig |
| Interrupts.LeftOff | kernel/SpinLock.zig:72-88 | acquire and release that leave interrupts off |
| Scheduler.SwitchOnlyToSaved | kernel/proc.zig:421-447 | the scheduler switches only to a context that was saved completely |
| SchedulerLaws.ProcessLaws | kernel/proc.zig:421-560 | what one step may do to a process: its state changes only along the edges of the code, by the CPU that is on its stack or that has its lock, and its lock passes only through that CPU |
| SchedulerLaws.RunsOnlyRunnable | kernel/proc.zig:421-447 | only a runnable process starts to run |
| SchedulerLaws.ZombieEnds | kernel/proc.zig:336-412 | a zombie stays one until it is unused: nothing runs or wakes it |
| SchedulerLaws.LookDecides | kernel/proc.zig:421-447 | the scheduler that has locked a process switches to it exactly if it is runnable, and otherwise leaves its state |
| SchedulerLaws.FoundRuns | kernel/proc.zig:421-447 | a runnable process that the scheduler has locked is on a CPU before that scheduler goes on |
| SchedulerLaws.NeverStuck | kernel/proc.zig:421-447 | a CPU in the scheduler always has a step, unless every process is locked |
| ExitWait.RunInv | kernel/proc.zig:201-560 | the invariant of processes and wait_lock in every state of every run, threads interleaving at every lock operation |
| ExitWait.NoLostZombie | kernel/proc.zig:336-412 | whenever wait_lock is free nobody sleeps in wait, or is on the way there, with a zombie child; children given to init included |
| ExitLaws.ProcessLaws | kernel/proc.zig:201-560 | what one step may do to a process: who may change its parent, its state and its killed flag, and from what to what |
| ExitLaws.ParentsLive | kernel/proc.zig:201-372 | the parent of a process is another one that lives and has not exited: exit gives all children to init |
| ExitLaws.SleepsOverChild | kernel/proc.zig:376-412 | whoever sleeps in wait has a child |
| ExitLaws.WaitDecides | kernel/proc.zig:376-412 | a scan that found no zombie gives up exactly if the process has no child or is killed, and otherwise goes to sleep |
| ExitLaws.WaitReturns | kernel/proc.zig:376-412 | a call of wait returns only if at some step of it, under wait_lock, it had no child, was killed, or had found a zombie child |
| ExitLaws.WakeupVisits | kernel/proc.zig:529-540 | a finished wakeup has, at some step of it, visited every other process and left it runnable if it slept on the channel |
| ExitProgress.NeverStuck | kernel/proc.zig:201-560 | every process that is on a CPU has a step, unless it waits for wait_lock or for the lock of one process that another has |
| ExitProgress.RunnableRuns | kernel/proc.zig:421-447 | a runnable process that is off its stack and not locked can be running two steps later, where it left off |
| ExitProgress.ZombieFreed | kernel/proc.zig:389-402 | a wait that has locked a zombie child can free it and return |
| ExitWait.ReapedOnce | kernel/proc.zig:376-412 | every process that became a zombie is still one or was freed, once |
| ExitWait.ReapedByParent | kernel/proc.zig:376-412 | a zombie is freed only by its parent, inside wait, and off its kernel stack |
| ExitWait.ExitHasParent | kernel/proc.zig:336-372 | an exiting process has a parent to wake, and init never becomes a zombie |
| PageTables.SplitUnique | kernel/vm.zig:30-43 | an address's three indices determine its page |
| PageTables.SplitDigits | kernel/vm.zig:30-43 | the three indices are the digits of the page number, the root table's first |
| PageTables.LinkTranslates | kernel/vm.zig:137-159 | a new empty table in walk changes no translation and adds one page to the tree |
| PageTables.LeafTranslates | kernel/vm.zig:186-229 | writing a leaf entry changes the translation of exactly its page |
| PageTables.EmptyTranslates | kernel/vm.zig:122-129 | a fresh table translates nothing |
| VmCode.MappedAt | kernel/vm.zig:186-208 | which page mappages gives which frame |
| VmCode.UnmappedAt | kernel/vm.zig:211-229 | which pages unmap removes |
| VmCode.Memory.constructor | kernel/vm.zig:122-129 | an empty table and free pages |
| VmCode.Memory.CreateTable | kernel/vm.zig:122-129 | a zeroed free page; fails only when none is free |
| VmCode.Memory.Descend | kernel/vm.zig:144-156 | one level: the table there, or a new one linked |
| VmCode.Memory.Walk | kernel/vm.zig:137-159 | creates exactly the missing tables, changes no translation, and fails exactly when fewer pages are free than tables missing |
| VmCode.Memory.Find | kernel/vm.zig:137-159 | without allocating: the table, or the page is not mapped |
| VmCode.Memory.MapOne | kernel/vm.zig:194-205 | one page mapped, or out of pages |
| VmCode.Memory.MapPages | kernel/vm.zig:186-208 | every page of the range mapped to consecutive frames, or a first part if pages ran out; succeeds exactly if as many pages are free as the range lacks tables |
| VmCode.Memory.UnmapOne | kernel/vm.zig:216-228 | one page unmapped and its frame freed |
| VmCode.Memory.Unmap | kernel/vm.zig:211-229 | exactly the range unmapped, and exactly its frames freed |
| VmCode.Memory.WalkAddr | kernel/vm.zig:170-182 | the frame of a user page; not mapped, not user and beyond MAXVA are errors |
| VmCode.Memory.FreeWalk | kernel/vm.zig:287-302 | every table of the tree freed, once, and no other |
| TableCount.LinkOpens | kernel/vm.zig:144-156 | a table created in walk is there for exactly the pages that share the path to it |
| TableCount.NextNeeds | kernel/vm.zig:186-208 | how many tables the next page of a range lacks once those before it are mapped, from the tables there were at first |
| VmUser.Dealloc | kernel/vm.zig:272-284 | exactly the pages between the sizes go; nothing happens, not even to the size, unless memory remains |
| VmUser.Alloc | kernel/vm.zig:249-267 | zeroed pages up to the new size; succeeds exactly if there are free pages for them and for the tables they lack; a failure takes everything back exactly if oldsz is not 0 or not even page 0 could be had |
| VmUser.AllocKeeps | kernel/vm.zig:249-267 | a failed alloc from size 0 that leaves a page mapped |
| VmUser.Rollback | kernel/vm.zig:258-258 | the errdefer, which does nothing when oldsz is 0 |
| VmUser.GrowUp | kernel/proc.zig:276-287 | the process grows by pages that are zero and that it can read and write but not execute, keeps its other pages with frame, flags and contents, and the kernel's; or, exactly if free pages do not suffice for the new pages and the tables they lack, keeps size, mapping and memory |
| VmUser.GrowDown | kernel/proc.zig:276-287 | the process loses exactly the pages above the new size and keeps the others with frame, flags and contents; nothing happens if nothing would remain |
| VmUser.CreatePagetable | kernel/proc.zig:151-173 | trampoline mapped to read and execute and trapframe to read and write, neither for the user, exactly if three pages are free; else every page given back |
| VmUser.Free | kernel/vm.zig:304-309 | user pages and tables go back, and nothing else |
| VmUser.Requests | kernel/proc.zig:276-287 | any sequence of growing and shrinking keeps the process's memory its own: the pages it has had all the time keep frame, flags and contents, the others are zero; and the size after each request |
| VmUser.Request | kernel/proc.zig:276-287 | shrinking leaves exactly the smaller size unless nothing would remain; growing succeeds exactly if there are free pages for the new pages and the tables they lack |
| VmUser.Lifetime | kernel/proc.zig:151-197 | from createPagetable to free, with any growing and shrinking between, every page ends where it was |
| VmFork.KeepOther | kernel/vm.zig:313-330 | growing the child's tree leaves the parent's translation |
| VmFork.CopyOne | kernel/vm.zig:314-329 | one page of the parent copied to a new page of the child, or nothing |
| VmFork.Copy | kernel/vm.zig:313-330 | every page of the parent, with its flags and bytes, in frames of the child's own; succeeds exactly if free pages suffice; else the child is as before, and it panics exactly if not even the first page could be had |
| VmFork.TakeBack | kernel/vm.zig:318-318 | the errdefer, whose call of unmap fails its assertion exactly when nothing was copied |
| VmFork.CopyPanics | kernel/vm.zig:211-212 | a process with one page that forks when no page is left |
| VmCopy.CopyOut | kernel/vm.zig:337-353 | the bytes are at the addresses, across pages, and nothing else changed; it fails at the first byte that is not user memory |
| VmCopy.CopyIn | kernel/vm.zig:361-376 | the bytes at the addresses; it fails at the first that is not user memory |
| VmCopy.WrittenIsAt | kernel/vm.zig:337-376 | what was written is what is read |
| VmCopy.RoundTrip | kernel/vm.zig:337-376 | copyin gives back what copyout wrote, and both succeed exactly on user memory |
| VmCopy.ProcessRoundTrip | kernel/vm.zig:337-376 | for a process: exactly within its size |
| PageRuns.Pages | kernel/PageAllocator.zig:50-52 | enough pages for the bytes, and the last one is needed |
| PageRuns.PagesHold | kernel/PageAllocator.zig:50-52 | they are exactly the pages that hold one of the bytes |
| PageRuns.CanonicalUnique | kernel/PageAllocator.zig:44-145 | a set of free pages has one list of sorted, merged runs |
| PageRuns.TakenFree | kernel/PageAllocator.zig:44-92 | allocating removes exactly the pages given out |
| PageRuns.GivenFree | kernel/PageAllocator.zig:94-145 | freeing adds exactly the pages given back |
| PageRuns.GivenCanonical | kernel/PageAllocator.zig:94-145 | freeing merges with both neighbours and keeps the runs sorted and apart |
| PageRuns.ConservedAlloc | kernel/PageAllocator.zig:44-92 | allocated and free pages make up the heap, before and after |
| PageRuns.ConservedFree | kernel/PageAllocator.zig:94-145 | and so do they after a free |
| PageRuns.AllFreed | kernel/PageAllocator.zig:94-145 | with everything freed the list is the one run it began with |
| PageRuns.Allocator.constructor | kernel/PageAllocator.zig:35-42 | one run |
| PageRuns.Allocator.Alloc | kernel/PageAllocator.zig:44-92 | the first run that fits, in memory; the pages that leave the list are exactly those that hold one of the n bytes; fails exactly if no run has room for n bytes or the size overflows |
| PageRuns.Allocator.FreePages | kernel/PageAllocator.zig:94-145 | the pages that hold the n bytes are free, and no others become free; merged, in memory |
| PageRuns.History | kernel/PageAllocator.zig:44-145 | over any history nothing is lost or given out twice, and all freed is all merged |
| Umalloc.PlaceExists | user/umalloc.c:31-33 | free's loop has a place to stop, whatever block it starts at |
| Umalloc.StopsAtPlace | user/umalloc.c:31-33 | where it stops is where the block belongs, also at the wrap |
| Umalloc.Heap.constructor | user/umalloc.c:21-22 | no memory yet |
| Umalloc.Heap.FindSpot | user/umalloc.c:31-33 | the place of the block in the ring |
| Umalloc.Heap.FreeBlock | user/umalloc.c:25-44 | the block is linked in place and merged with what it touches |
| Umalloc.Heap.MoreCore | user/umalloc.c:47-61 | the new memory is free, with a block that is large enough |
| Umalloc.Heap.LinkCore | user/umalloc.c:56-60 | the new block is linked like a freed one |
| Umalloc.Heap.Scan | user/umalloc.c:73-89 | the first block from freep on that fits, or none does |
| Umalloc.Heap.Take | user/umalloc.c:74-84 | the block, or its end, leaves the ring |
| Umalloc.Heap.Malloc | user/umalloc.c:64-90 | a block of its own for every call; fails exactly if nothing fits and sbrk refuses |
| Umalloc.TilesTake | user/umalloc.c:64-90 | free and live blocks still tile the memory from sbrk after malloc |
| Umalloc.TilesGive | user/umalloc.c:25-44 | and after free |
| Umalloc.AllFreed | user/umalloc.c:25-44 | with nothing live there is one possible list |
| Umalloc.Units | user/umalloc.c:69-69 | a header and enough units for the bytes, and not one more |
| Umalloc.SbrkExact | user/umalloc.c:47-61 | sbrk is asked for what morecore links exactly below 2^31 bytes |
| Umalloc.SbrkWraps | user/umalloc.c:47-61 | malloc of 2^32 - 1 bytes asks sbrk for 16 |
| Umalloc.History | user/umalloc.c:25-90 | over any history live and free blocks tile the memory from sbrk, apart and merged |
| Virtio.InFlight | kernel/virtio_disk.c:202-213 | chains of three descriptors are apart, so at most NUM / 3 are in flight |
| Virtio.RingNext | kernel/virtio_disk.c:295-327 | 16-bit indices that wrap still tell empty from full and name the right slot |
| Virtio.RingPush | kernel/virtio_disk.c:271-277 | publishing overwrites nothing that still waits |
| Virtio.RunSound | kernel/virtio_disk.c:157-327 | the invariant of driver and device in every state of every run |
| Virtio.Partitioned | kernel/virtio_disk.c:157-213 | every descriptor is free or in exactly one chain |
| Virtio.FewInFlight | kernel/virtio_disk.c:216-292 | at no time are more than NUM / 3 requests in flight |
| Virtio.RingsHold | kernel/virtio_disk.c:216-327 | however often the indices have wrapped, each ring holds what waits, oldest first, and is never nearly full |
| Virtio.RequestStays | kernel/virtio_disk.c:216-327 | a request keeps its buffer, direction and sector, is completed once and wakes its buffer once |
| VirtioData.StoreIs | kernel/virtio_disk.c:216-292 | the disk holds what was last written to each sector |
| VirtioData.WriteGives | kernel/virtio_disk.c:216-292 | what a write gives to the disk is what its buffer held when submitted |
| VirtioData.ReadGets | kernel/virtio_disk.c:216-327 | a finished read holds what was last written to its sector |
| Virtio.Disk.constructor | kernel/virtio_disk.c:62-153 | all descriptors free, the rings empty |
| Virtio.Disk.AllocDesc | kernel/virtio_disk.c:157-166 | the first free descriptor, or none |
| Virtio.Disk.FreeDesc | kernel/virtio_disk.c:170-182 | free and cleared |
| Virtio.Disk.FreeChain | kernel/virtio_disk.c:186-197 | exactly the three of the chain |
| Virtio.Disk.Alloc3 | kernel/virtio_disk.c:202-213 | three, or all as before and at most two were free |
| Virtio.Disk.Format | kernel/virtio_disk.c:235-269 | the chain as the device expects it |
| Virtio.Disk.Submit | kernel/virtio_disk.c:216-281 | one try: a published chain, or too few descriptors |
| Virtio.Disk.Finish | kernel/virtio_disk.c:283-291 | the chain is free again |
| Virtio.Disk.IntrOne | kernel/virtio_disk.c:312-324 | one completion noticed |
| Virtio.Disk.Intr | kernel/virtio_disk.c:295-327 | every completion in the ring noticed, their buffers woken in that order |
| Virtio.Disk.DeviceTake | kernel/virtio_disk.c:271-281 | the device's side: the oldest published chain |
| Virtio.Disk.DeviceComplete | kernel/virtio_disk.c:309-324 | the device's side: the block moved as the descriptors say |
| Pipe.Counters | kernel/pipe.c:77-130 | 32-bit counters that wrap still tell full and empty and name the right slot |
| Pipe.Channel.constructor | kernel/pipe.c:23-56 | an empty open pipe |
| Pipe.Channel.Put | kernel/pipe.c:95-96 | one byte more |
| Pipe.Channel.Write | kernel/pipe.c:77-103 | appends a prefix of the rest in order; leaves a reader asleep exactly if a writer with bytes left is killed after storing some and before the pipe is full |
| Pipe.Channel.Read | kernel/pipe.c:106-130 | takes the oldest bytes in order; one byte too many exactly if there is no room for a byte that is asked for and there; leaves nobody asleep |
| Pipe.Channel.Close | kernel/pipe.c:59-74 | wakes exactly who sleeps at the other end, and frees the pipe exactly with the second end |
| Pipe.Channel.Kill | kernel/proc.zig:545-560 | kill wakes the thread |
| Pipe.KilledWriter | kernel/pipe.c:84-87 | a reader asleep at a pipe with data |
| Pipe.LostByte | kernel/pipe.c:120-126 | a byte that nobody gets |
| Pipe.History | kernel/pipe.c:59-130 | over any interleaving readers get, in order, what writers put without the lost bytes; everything exactly if none is lost; nobody sleeps in vain unless a killed writer forgets a reader |
| Grep.ItemsSpell | user/grep.c:84-95 | the items of a pattern spell it |
| Grep.ItemsReadWell | user/grep.c:84-95 | $ is special exactly at the end of the pattern, and a star is read with the character before it |
| Grep.ItemMatches | user/grep.c:84-105 | a pattern matches by taking some part for its first item and the rest for the others |
| Grep.OneMatches | user/grep.c:84-95 | a plain character or dot |
| Grep.EndMatches | user/grep.c:84-95 | a final $ |
| Grep.MatchHere | user/grep.c:84-95 | exactly the texts that have a matching prefix in the declarative sense |
| Grep.MatchStar | user/grep.c:98-105 | the same for c* |
| Grep.Match | user/grep.c:72-81 | anchored patterns at the start, others anywhere |
| ShellSyntax.ParseSound | user/shell/Parser.zig:22-44 | what the parser accepts is a sentence of the documented grammar, and the tree is its tree |
| ShellComplete.ParseExact | user/shell/Parser.zig:22-44 | it accepts exactly the sentences, with exactly their trees |
| ShellComplete.Unambiguous | user/shell/Parser.zig:22-27 | no input is a sentence in two ways |
| ShellNodes.AtStays | user/shell/Parser.zig:239-251 | what nodes and lists stand for does not change when more are added |
| ShellParser.Parser.constructor | user/shell/Parser.zig:14-34 | a parser at the first token, its root reserved |
| ShellParser.Parser.AddNode | user/shell/Parser.zig:247-251 | one more node |
| ShellParser.Parser.ListToSpan | user/shell/Parser.zig:239-245 | the items at the end of extra_data |
| ShellParser.Parser.CollectFiles | user/shell/Parser.zig:183-196 | the redirections from here on, or an error |
| ShellParser.Parser.ParseFiles | user/shell/Parser.zig:179-209 | their files, sorted by kind and stable |
| ShellParser.Parser.KindNode | user/shell/Parser.zig:145-164 | a node for the files of one kind, or none |
| ShellParser.Parser.KindNodes | user/shell/Parser.zig:142-165 | five of them |
| ShellParser.Parser.ParseExec | user/shell/Parser.zig:211-231 | builds the node of the command that the grammar finds here |
| ShellParser.Parser.ParseBlock | user/shell/Parser.zig:233-237 | the same in parentheses |
| ShellParser.Parser.ParseCmdLine | user/shell/Parser.zig:52-67 | the same for a command line |
| ShellParser.Parser.ParseItems | user/shell/Parser.zig:69-108 | the same for a list |
| ShellParser.Parser.ListRound | user/shell/Parser.zig:73-104 | one round: an item more, or the end |
| ShellParser.Parser.Separator | user/shell/Parser.zig:80-103 | what a separator makes of the pipeline before it |
| ShellParser.Parser.ParsePipe | user/shell/Parser.zig:110-124 | the same for a pipeline |
| ShellParser.Parser.ParseRedir | user/shell/Parser.zig:126-177 | the same for redirections |
| ShellParser.Parser.ParseRoot | user/shell/Parser.zig:28-44 | accepts exactly what the reference parser accepts, and the flat arrays hold its tree |
| ShellFiles.Sort | user/shell/Parser.zig:201-207 | a stable sort by kind |
| ShellFiles.KindRange | user/shell/Parser.zig:143-155 | in sorted files each kind is one range |
| ShellFiles.SortedNames | user/shell/Parser.zig:142-209 | the names found through the sorted ranges are the files of each kind in source order |
| ShellTokens.Tokenizer.Next | user/shell/tokenizer.zig:60-110 | cuts off the next token |
| ShellTokens.TaggedAs | user/shell/tokenizer.zig:60-110 | looking a whole lexeme up gives the tag its first characters call for |
| ShellTokens.Tokenize | user/shell/Ast.zig:88-110 | all tokens up to the end or the first invalid one |
| ShellPrint.PrintNode | user/shell/Ast.zig:168-215 | prints the text of the tree a node stands for |
| ShellPrint.Print | user/shell/Ast.zig:168-215 | prints the text of the whole |
| ShellPieces.TokensShift | user/shell/tokenizer.zig:60-110 | tokens do not depend on what is before them |
| ShellPieces.FrontToken | user/shell/tokenizer.zig:60-110 | a lexeme in front of anything that does not run into it is read first |
| ShellPieces.ReadBack | user/shell/Ast.zig:168-215 | spaced out lexemes are read back as they are |
| ShellRoundTrip.RoundTrip | user/shell/Ast.zig:168-215 | tokenizing and parsing the printed text of a tree without needless parentheses gives the tree back |
| ShellExact.ListParens | user/shell/Ast.zig:168-215 | printed text has one "(" for each list in the tree |
| ShellExact.ListBound | user/shell/Parser.zig:22-27 | a derivation has as many only if no command in it needs parentheses of its own |
| ShellExact.ParensBuilt | user/shell/Parser.zig:126-237 | the parser builds a redirection of a whole pipeline |
| ShellExact.ParensLost | user/shell/Ast.zig:168-215 | which is printed and read back as one of its last command |
| ShellQuotes.TokensQuotes | user/shell/tokenizer.zig:60-110 | of the quotation marks it passes the tokenizer drops two for each quoted token and keeps the others: an exact count |
| ShellQuotes.ListQuotes | user/shell/Ast.zig:168-215 | print writes no others than those inside lexemes |
| ShellQuotes.SelfWord | user/shell/tokenizer.zig:60-110 | a word is read as itself exactly if it has no space and no symbol, does not begin with a quotation mark or NUL, and is tagged as cd or not as it is spelt |
| ShellQuotes.QuotesLost | user/shell/Ast.zig:168-215 | a quoted word with a space, built by tokenizer and parser, is printed and read back as two words |
| ShellQuotes.ComesBack | user/shell/Ast.zig:88-215 | a tree comes back from its text exactly if its lexemes are read as themselves and no command in it needs parentheses of its own |
| ShellQuotes.PrintAndParse | user/shell/Ast.zig:88-215 | the same for the code: print, tokenizer and parser on the flat arrays |
| ShellQuotes.RootUnique | user/shell/Parser.zig:28-44 | the flat arrays stand for one tree only |

## Left out

- LogCode.Log.EndOp: models the call that does not wait; begin_op's and end_op's sleeping and waking is in the state machine, where a step that has to wait is simply not taken.
- LogTheorems.GroupCommit: assumes that an operation calls log_write at most MAXOPBLOCKS times, which kernel/log.c asks of its callers and does not check.
- LogTheorems.CrashAtomicity: a block is written to the disk completely or not at all and writes arrive in order, as the driver waits for each; torn blocks are not modelled.
- LogBuffers.BufferCapacity: says when bget cannot panic in a commit while nobody else uses a buffer; how many buffers operations hold at once is not modelled.
- FsCode.FileSystem.Bmap: one thread at a time; other processes between the allocations of one call are modelled for the doubly-indirect path only (FsRace), where they keep their own files consistent.
- FsRace.MapAmongTruncations: a truncation by another process is one step, and allocations by others are only in FsRace.MapAmongOthers.
- FsIo.Readi: either_copyout succeeds up to a given number of bytes and then fails; a copy of one chunk is all or nothing. The same holds for either_copyin in FsIo.Writei.
- FsIo.Writei: holds for files without holes, which every sequence of calls keeps.
- FsImage.Image.Append: files larger than MAXFILE blocks are excluded, as FsRun.Mkfs looks before; the builder's final assertion on freeblock is made when a sector is taken.
- InodeCode.Inodes.Iput: one uninterrupted call; interrupted ones are the runs of InodeTable.
- InodeCode.Inodes.Ilock: models the call that gets the sleep lock at once.
- ExitWait.NoLostZombie: sleeping on channels other than process slots is one step under the process's lock; allocpid, file descriptors and the trap frame of fork are not modelled, nor fork's failure after allocproc.
- Scheduler.SwitchOnlyToSaved: swtch is one transfer of control; registers are not modelled.
- Scheduler.SchedNeverPanics: callers of yield, sleep and exit hold no spin lock besides those that the calls release before sched.
- VmUser.Alloc: sizes up to TRAPFRAME only; growing into the trapframe makes mappages panic.
- VmUser.GrowUp: a process with memory, as every process has from userinit or exec on and as growing and shrinking keep it.
- VmCode.Memory.MapPages: panics (remap, address beyond MAXVA) are excluded by its preconditions; the bit layout of entries is modelled by their fields.
- Umalloc.Heap.Malloc: sbrk gives memory aligned to headers and above all it gave before, and callers do not overwrite headers; a request that sbrk would have to answer with less than is linked is excluded, as SbrkExact says.
- Virtio.RunSound: the device follows the specification and memory is sequentially consistent; the fences, the MMIO registers and virtio_disk_init's negotiation are not modelled.
- Pipe.Channel.Write: killAt is where the call finds that it was killed; file descriptors are not modelled.
- ShellParser.Parser.ParseRoot: running out of memory is not modelled, and std.sort.insertion is modelled by an insertion sort that is proved stable.
- iupdate's encoding of inodes, directories and path names: would add easy members.
- exec, system call wrappers, traps, boot, consoles, UART and PLIC: hardware and glue.
- copyinstr and clear: would add easy members.
- The shell's execution of trees: file descriptors and processes, not parsing.
