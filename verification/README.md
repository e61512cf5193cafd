# Verified models of an xv6 teaching kernel and its labs

This project models the stateful cores of a set of operating-system labs built on xv6 and proves what
they promise. Each source file has its own module (two where the code and the machine it drives are
both modelled). Code that works in place is a class whose methods carry loop invariants and are tied to
functions over values; protocols between processes are machines of steps, and the theorems are about
all runs of any number of processes. A `panic` is an outcome: a theorem proves it unreachable, or says
exactly when it happens.

| modules | what they cover |
|---|---|
| RedoLog, LogDevice, LogMachine, LogSpace, LogBuffers | the redo log: crash atomicity and restartable recovery, the loops of log.c, group commit of concurrent operations with crashes, log space, buffers |
| Bio, BioRefs, BufferRing | the buffer cache: transparent to its users in every run, references counted, LRU ring in the code's own pointers |
| FsImage, FsSpace, Fs, FsWriters | block-mapped files as byte sequences; bitmap, free blocks, indirect blocks, truncation, `filewrite` against the log budget and beside other writers |
| Umalloc | the Kernighan-Ritchie allocator |
| PageTables, Vm | two-level page tables and page ownership under allocation failure |
| ProcTable, ProcCode, ProcWaits, ProcLives, SleepWakeup, Accounting, ClockSections, ClockLocks | exit/wait, who waits for what, pids, parents and kill over whole lives, lost wakeups, snapshot time accounting against per-tick counting, interrupts, nested locks and the clock |
| Pipe, PipeCalls, PipeEnds | the ring with wrapping counters and its sleep/wakeup protocol; what each call puts and takes, end of file, broken pipe |
| Shell, ShellCursor | the shell's grammar, a printer, and the parser as it runs |
| Grep | the regular-expression matcher against a denotation |
| Cricket | the token protocol of the semaphore lab |
| Emufs, EmufsData, EmufsRuns, Cipher | the emulated file system: creation, subtree deletion, handles, reading and writing, whole runs; its byte cipher |

Run `dafny verify dfyconfig.toml` in this directory.

## What the proofs show about the code

- `log_write` tests for a full header before it looks whether the block is already listed, and the test
  uses `log.size - 1`, which is 29 with the log that mkfs makes. Operations within MAXOPBLOCKS can
  therefore reach its panic; LogSpace.PanicExactly says when.
- `log_write` makes that test before it takes `log.lock`. Two operations can both pass it with room for one
  entry, and with mkfs's log of LOGSIZE blocks the log then outgrows its area: `commit` overwrites the first
  block after the log before its header write, and a crash leaves it so (LogSpace.OverrunExactly,
  LogSpace.BlockLost). With a larger area this cannot happen (LogSpace.GroupCommitKept), but then the log can
  pin every buffer and leave `commit` none, because NBUF equals LOGSIZE (LogBuffers.BuffersExactly).
- Operations that keep their promise can meet "bget: no buffers" as soon as two buffers are in use at a time
  beside a full log (LogBuffers.BuffersRunOut).
- `filewrite` gives up the inode's lock between chunks: overlapping writers can leave a mixture of both
  (FsWriters.ChunksMix), writers of different parts cannot disturb each other (FsWriters.WriteKept).
- `malloc` rounds in 32-bit arithmetic; for requests above 2^32 - 8 bytes the block is too small
  (Umalloc.UnitsFit).
- With more than one CPU the clock can tick between the two readings in `scheduler` and `yield`; such ticks
  are lost (Accounting.LostTicks). NCPU is 1, and then the snapshots are exact (ClockSections.OneCpuRun).
- A writer that is killed while it waits for room in a pipe leaves without waking the readers. Readers
  that slept then sleep on a full pipe (Pipe.StrandingRun) until another write or the close; nothing else
  strands a reader (Pipe.StrandedExactly).
- `kill` compares pids of free entries too. `kill(0)` marks the first free entry that was never used or has been
  reaped, nothing clears the mark, and the process forked into it next is killed before it runs
  (ProcLives.StrayKill); ProcLives.KilledExactly says which processes are marked.
- The shell treats `>>` as `>` and accepts nothing after `&` but `;`, `&`, `)` or the end of the line.
- A comment in emufs-ops.c says that deletion closes all handles on the entity. `change_dir` does not test
  that its path is a directory, nor `open_file` that its path is a file; such a handle stays open when its
  entity is deleted (EmufsRuns.StaleRun), and creating through it breaks the tree (EmufsRuns.CorruptRun).
  Without such calls neither happens (EmufsRuns.HandlesExactly).
- `emufs_write` that runs out of blocks leaves the blocks it had taken marked, in no file
  (EmufsRuns.BlocksExactly).

## Model

| member | source | states |
|---|---|---|
| RedoLog.CrashAtomicity | lab6/lab6solutions/log.c:69-202 | stop `commit` after any prefix of its block writes, stop the recovery any number of times, let one finish: all home blocks are old if the header write is not in the prefix, all new if it is, and the log is empty |
| RedoLog.CommitPrefix | lab6/lab6solutions/log.c:177-202 | replaying the first k block writes of `commit` gives a closed form of the disk, for every k |
| RedoLog.CommitView | lab6/lab6solutions/log.c:100-113 | the header write is the commit point: before it the disk means the old blocks, from it on the new ones |
| RedoLog.CommitStep | lab6/lab6solutions/log.c:192-202 | one more block write of `commit` takes one closed form of the disk to the next, whatever phase it is in |
| RedoLog.RecoverPrefix | lab6/lab6solutions/log.c:115-122 | the same closed form for any prefix of the writes of `recover_from_log` |
| RedoLog.RecoverView | lab6/lab6solutions/log.c:115-122 | recovery can be restarted: after any prefix of its writes the disk still means the same blocks, and a finished recovery has installed them |
| RedoLog.Interrupted | lab6/lab6solutions/log.c:115-122 | any sequence of cut-short recoveries leaves a header that recovery can install and the same meaning |
| RedoLog.Header | lab6/lab6solutions/log.c:100-113 | `write_head` makes the block list the in-memory entries, whatever the header block held before |
| RedoLog.PastArea | lab6/lab6solutions/log.c:177-189 | some log copy of `commit` goes to a block outside the log area if and only if the header lists as many blocks as the area has |
| RedoLog.Spill | lab6/lab6solutions/log.c:177-189 | with that many, the last copy overwrites the home block after the log area while nothing is committed yet |
| LogDevice.Log.Commit | lab6/lab6solutions/log.c:192-202 | the loops of `commit` issue exactly the modelled list of block writes in order, leave the log empty and every logged buffer clean |
| LogDevice.Log.WriteLog | lab6/lab6solutions/log.c:177-189 | copies the cached contents of every listed block into the log, in order, and changes no cached home block |
| LogDevice.Log.WriteHead | lab6/lab6solutions/log.c:100-113 | the header block on disk lists the in-memory header, in one write |
| LogDevice.Log.InstallTrans | lab6/lab6solutions/log.c:69-82 | copies each log block to its home block, in order, and unpins exactly the listed buffers |
| LogDevice.Log.ReadHead | lab6/lab6solutions/log.c:84-97 | the in-memory header becomes the list on disk |
| LogDevice.Log.RecoverFromLog | lab6/lab6solutions/log.c:115-122 | boots from any installable disk to the blocks that the disk means, with an empty log |
| LogDevice.Log.LogWrite | lab6/lab6solutions/log.c:213-233 | panics exactly when the header is full, also for a block it already lists, or no operation is outstanding; otherwise lists the block once and pins its buffer |
| LogDevice.Log.BeginOp | lab6/lab6solutions/log.c:124-142 | admits an operation exactly when no commit runs and its reservation fits |
| LogDevice.Log.EndOp | lab6/lab6solutions/log.c:144-174 | the last outstanding operation commits; nothing is written otherwise |
| LogDevice.CommitPhases | lab6/lab6solutions/log.c:192-202 | the list of writes is log copies, header, installs, cleared header |
| LogDevice.RecoverMeaning | lab6/lab6solutions/log.c:115-122 | after all writes of a recovery the home blocks are what the crashed disk meant |
| LogMachine.GroupCommit | lab6/lab6solutions/log.c:124-233 | in every run of any number of operations, crashes and recoveries, with the test of `log_write` made before its lock is taken, up to an overrun of the log area: the disk always means a prefix of the logged writes that contains whole operations only, `committing` implies no outstanding operation, and whenever nobody is outstanding and no commit runs the log is empty, every write is committed and the home blocks hold it |
| LogMachine.SettledKept | lab6/lab6solutions/log.c:144-174 | every step keeps: with no operation outstanding and no commit running the log is empty, because the last `end_op` commits whatever has been logged |
| LogMachine.DoInv | lab6/lab6solutions/log.c:124-233 | every critical section, unlocked test, block write, buffer action, crash and recovery step keeps the invariant linking disk, header, cache and history; the only way out is an append that overruns the log, which is a phase of its own |
| LogMachine.Recoverable | lab6/lab6solutions/log.c:115-122 | in every reachable state, up to an overrun, a crash leaves an installable header and exactly the committed writes |
| LogMachine.Durability | lab6/lab6solutions/log.c:192-202 | a step never takes back a committed write and never reorders committed history |
| LogMachine.RunDurability | lab6/lab6solutions/log.c:192-202 | the same over whole runs, crashes included |
| LogMachine.RecoveryFinishes | lab6/lab6solutions/log.c:115-122 | a recovery can always go on, and its last write ends it with the committed blocks at home |
| LogMachine.CommitProceeds | lab6/lab6solutions/log.c:177-202 | each next write of `commit` finds its buffer cached and waits only for a reader that holds it |
| LogMachine.BootInv | lab6/lab6solutions/log.c:53-67 | a cleanly booted machine satisfies the invariant |
| LogSpace.GroupCommitKept | lab6/lab6solutions/log.c:124-233 | if operations keep their promise and the log area is larger than LOGSIZE, no run overruns the log, so group commit and recovery hold in every run without exception, and all writes are at home whenever nobody is outstanding |
| LogSpace.OverrunExactly | lab6/lab6solutions/log.c:218-230 | promise-keeping operations can make the header list as many blocks as the log area has, because the test is made before the lock is taken, if and only if the area has 2 to LOGSIZE blocks, as mkfs makes it |
| LogSpace.OverrunSpills | lab6/lab6solutions/log.c:177-189 | the commit that follows overwrites the home block after the log area with the last entry's contents before its header write |
| LogSpace.BlockLost | lab6/lab6solutions/log.c:177-230 | the whole failure, from any boot with a log area of 2 to LOGSIZE blocks and for any contents: a promise-keeping run overruns the log, the next commit copies the listed blocks, a crash and any interrupted recoveries follow; nothing was committed and no operation wrote the block behind the log, yet it holds another block's contents |
| LogSpace.NoOverrun | lab6/lab6solutions/log.c:218-230 | with a log area larger than LOGSIZE and the promise kept, the log stays within its area |
| LogSpace.Reservation | lab6/lab6solutions/log.c:132-136 | in every run that keeps the per-operation promise, header entries plus unused budgets fit LOGSIZE, so header indices stay in range |
| LogSpace.NoPanic | lab6/lab6solutions/log.c:218-220 | operations that count every call of `log_write` never meet "too big a transaction" if the log area is larger than LOGSIZE |
| LogSpace.PanicExactly | lab6/lab6solutions/log.c:218-221 | whether promise-keeping operations can reach that panic: if and only if only new header entries are counted, or the log area has at most LOGSIZE blocks, as mkfs makes it |
| LogBuffers.BuffersExactly | lab6/lab6solutions/param.h:11-12 | a commit that has the cache to itself can find all NBUF buffers pinned by the log, where `bget` panics, if and only if the log area has more than LOGSIZE blocks; a run that never has more than NBUF blocks cached gets there |
| LogBuffers.BuffersRunOut | lab6/lab6solutions/bio.c:68-93 | with at most u buffers in use at a time, promise-keeping operations or readers beside them can call `bread` with all NBUF buffers in use or pinned, where `bget` panics, if and only if u and the longest header together exceed NBUF: 2 are enough with mkfs's log |
| LogBuffers.BusyBound | lab6/lab6solutions/bio.c:78-92 | in every reachable state the buffers that cannot be recycled are at most the longest header and those in use |
| LogBuffers.BusyStays | lab6/lab6solutions/bio.c:58-141 | no step but a crash takes a buffer from whoever uses it, or one that the log pins: it stays in the cache and with its user until that one releases it |
| LogBuffers.RecycleExactly | lab6/lab6solutions/bio.c:78-92 | a buffer can be taken for another block if and only if it is neither in use nor pinned, and only this one leaves the cache |
| Bio.BootTransparent | lab6/lab6solutions/bio.c:38-141 | in every run from boot of any processes, a block seen through the cache is the disk's with the lock holders' changes, in order: nothing is lost by recycling and nothing stale is read |
| Bio.RunTransparent | lab6/lab6solutions/bio.c:58-141 | the same from any state that satisfies the invariant, which every run keeps |
| Bio.Transparent | lab6/lab6solutions/bio.c:58-141 | no step but a holder's own change alters any block as seen through the cache |
| Bio.DoInv | lab6/lab6solutions/bio.c:58-141 | every step keeps: the list holds all buffers ordered by last release, no block is in two buffers, clean unlocked buffers agree with the disk |
| Bio.Recycled | lab6/lab6solutions/bio.c:68-93 | "no buffers" happens exactly when the block is not cached and every buffer is referenced or dirty; otherwise the buffer recycled is the one released longest ago of those that are neither |
| Bio.InitInv | lab6/lab6solutions/bio.c:38-56 | `binit` establishes the invariant |
| Bio.FrontOrdered | lab6/lab6solutions/bio.c:128-138 | moving a released buffer to the head keeps the list ordered by release and complete |
| Bio.LatestAt | lab6/lab6solutions/bio.c:95-106 | a valid buffer holds the block's latest contents |
| Bio.UseOnce | lab6/lab6solutions/bio.c:58-141 | one use of a buffer that nobody holds, from `bget` to `brelse`, runs to its end; the block has the new contents through the cache and, after `bwrite`, on disk, no other block changes in the cache or on disk, and no reference and no lock is left over |
| Bio.SavedThen | lab6/lab6solutions/bio.c:108-126 | a holder that has changed the data may release the buffer after `bwrite` or `log_write` |
| BioRefs.CountsRight | lab6/lab6solutions/bio.c:58-141 | in every run from boot of any processes the reference count of each buffer is the number of references that `bget` has given out and `brelse` has not taken back, its lock is held by one of them or free, and every process with a reference finds its block in its buffer, however long it waits for the lock |
| BioRefs.NotVictim | lab6/lab6solutions/bio.c:68-93 | a buffer that a process refers to is never the one recycled for another block, and a second `bget` of its block gets the same buffer |
| BioRefs.CanGoOn | lab6/lab6solutions/bio.c:95-141 | whoever has a reference can take the lock when it is free and give the reference back |
| BioRefs.NextSound | lab6/lab6solutions/bio.c:58-141 | every step by an entitled process keeps counts, locks and references in agreement |
| BufferRing.Unlink | lab6/lab6solutions/bio.c:132-133 | taking a buffer out of the doubly linked ring leaves a doubly linked ring of the others, in order |
| BufferRing.PushFront | lab6/lab6solutions/bio.c:134-137 | putting it behind the head leaves a ring with it in front |
| BufferRing.Cache.constructor | lab6/lab6solutions/bio.c:38-56 | `binit` builds the ring over exactly the NBUF buffers |
| BufferRing.Cache.FindCached | lab6/lab6solutions/bio.c:68-76 | the walk along `next` ends and finds the first buffer of the block, or none |
| BufferRing.Cache.FindVictim | lab6/lab6solutions/bio.c:78-92 | the walk along `prev` ends and finds the last clean unreferenced buffer, or none |
| BufferRing.Cache.Bget | lab6/lab6solutions/bio.c:61-93 | claims the cached or the recycled buffer as the machine's step does; -1 stands for the panic |
| BufferRing.Cache.Bread | lab6/lab6solutions/bio.c:95-106 | returns a locked valid buffer with the block's latest contents; no block changes as seen through the cache |
| BufferRing.Cache.Bwrite | lab6/lab6solutions/bio.c:108-116 | the holder's data goes to disk and the buffer is clean |
| BufferRing.Cache.Brelse | lab6/lab6solutions/bio.c:118-141 | the last reference moves the buffer to the head of the ring; the pointers stay a ring |
| BufferRing.Cache.MoveToFront | lab6/lab6solutions/bio.c:130-138 | the six pointer assignments move one buffer to the front and keep the order of the rest |
| Fs.FileSystem.Balloc | lab6/lab6solutions/fs.c:55-78 | the first free block, marked and zeroed, or a full bitmap |
| Fs.FileSystem.Bfree | lab6/lab6solutions/fs.c:80-95 | clears the bit; "freeing free block" exactly when it was clear |
| Fs.FileSystem.Bmap | lab6/lab6solutions/fs.c:370-400 | the address of the n-th block, allocated with a missing indirect block if need be; every other slot of every inode and all contents stay; what is logged; fails exactly when fewer blocks are free than it needs; no block is lost |
| Fs.FileSystem.Itrunc | lab6/lab6solutions/fs.c:402-435 | never panics, frees exactly the blocks of that inode and loses none, leaves an empty inode written through; logs exactly the bitmap blocks of those blocks and the inode's |
| Fs.FileSystem.Iupdate | lab6/lab6solutions/fs.c:216-236 | the inode's copy on disk is the one in memory, others stay |
| Fs.FileSystem.Readi | lab6/lab6solutions/fs.c:449-476 | -1 exactly when the offset is past the end or off + n wraps; otherwise exactly content[off..min(off + n, size)] |
| Fs.FileSystem.Writei | lab6/lab6solutions/fs.c:478-511 | -1 exactly when the range starts past the end or does not fit a file; otherwise the content is spliced, other files keep theirs, blocks stay unshared, no holes; it panics exactly when fewer blocks are free than the unmapped blocks of the range and a missing indirect block need; no block is lost; at most MAXOPBLOCKS blocks are logged for up to 3 * BSIZE bytes |
| Fs.OpenFile.Operation | lab6/lab6solutions/file.c:140-145 | one chunk between `begin_op` and `end_op` logs at most MAXOPBLOCKS blocks and writes all or nothing; it panics exactly when the chunk fits the file and needs more blocks than are free |
| Fs.OpenFile.Write | lab6/lab6solutions/file.c:117-156 | `filewrite` in chunks is one splice of everything, or of the chunks that end before a file's greatest size, whose number of bytes is given; it panics exactly when these bytes need more blocks than are free; no operation exceeds its log budget; "short filewrite" is unreachable; no block is lost |
| FsSpace.AssignSpace | lab6/lab6solutions/fs.c:55-78 | giving a slot a free block takes one free block and loses none: the slot refers to it |
| FsSpace.TruncatedLost | lab6/lab6solutions/fs.c:402-435 | after truncation the blocks in use without a reference are those that there were before |
| FsSpace.NeedNext | lab6/lab6solutions/fs.c:370-400 | mapping one block lowers what the rest of a write needs by exactly what that block took, over the switch to the indirect block |
| FsSpace.SpaceRound | lab6/lab6solutions/fs.c:498-504 | one round of `writei` keeps the number of free blocks less those that the rest of the write needs |
| FsSpace.FreeNone | lab6/lab6solutions/fs.c:61-77 | no block is free exactly when every bit is set |
| FsWriters.ChunksKept | lab6/lab6solutions/file.c:135-154 | in every interleaving of the chunks of any writers of one inode, also through shared descriptors: where no other descriptor has written, the file holds the chunks written through a descriptor, in order, from where it started; what none has written is as before |
| FsWriters.WriterKept | lab6/lab6solutions/file.c:135-154 | each writer's bytes so far are exactly its own chunks, in order, all through its descriptor |
| FsWriters.WriteKept | lab6/lab6solutions/file.c:135-154 | so a writer with its own descriptor finds all it has written in the file if no other descriptor wrote there |
| FsWriters.TakeTurn | lab6/lab6solutions/file.c:135-154 | the code of one turn does to file, descriptor and writer what the step of the interleaving does, and fails exactly when its chunk of at most CHUNK bytes does not fit |
| FsWriters.TurnProgresses | lab6/lab6solutions/file.c:135-154 | a turn writes at least one byte or is the writer's last, so no call of `filewrite` goes on for ever |
| FsWriters.ChunksMix | lab6/lab6solutions/file.c:135-154 | for any two buffers of two chunks written at the same place, a run that leaves one's first chunk and the other's second |
| FsWriters.DoInv | lab6/lab6solutions/file.c:140-145 | each chunk, whole or refused, keeps what every descriptor and every writer has written |
| FsImage.AssignConsistent | lab6/lab6solutions/fs.c:370-400 | giving a slot a fresh block keeps every block referenced at most once with its bit set |
| FsImage.TruncatedConsistent | lab6/lab6solutions/fs.c:402-435 | truncation keeps that too and does not touch other files |
| FsImage.AttachMaps | lab6/lab6solutions/fs.c:370-400 | attaching a block maps that block number and nothing else changes |
| FsImage.TableThenMaps | lab6/lab6solutions/fs.c:385-396 | allocating the indirect block first and then the entry maps one block number and nothing else |
| FsImage.ProgressStep | lab6/lab6solutions/fs.c:498-504 | one round of `writei` extends the bytes written across block boundaries and the direct/indirect switch |
| FsImage.SpendTotal | lab6/lab6solutions/file.c:127-133 | blocks logged are bounded by rounds, new blocks and table writes |
| Umalloc.Heap.Free | lab6/lab6solutions/umalloc.c:24-44 | inserts and coalesces: the ring stays circular, address-ordered, disjoint and fully coalesced, and only that block stops being allocated |
| Umalloc.Heap.Malloc | lab6/lab6solutions/umalloc.c:63-90 | the first fit after `freep` if there is one, otherwise exactly one call of sbrk; null exactly when no block fits and sbrk refuses; the result was not allocated and other blocks are untouched |
| Umalloc.Heap.MoreCore | lab6/lab6solutions/umalloc.c:46-61 | grants at least 4096 units as a free block adjacent to `freep`, or changes nothing |
| Umalloc.Heap.Search | lab6/lab6solutions/umalloc.c:30-32 | the wrap-around search of `free` terminates at the one block after which the freed one belongs |
| Umalloc.Heap.Join | lab6/lab6solutions/umalloc.c:33-42 | the two conditionals merge with the upper and the lower neighbour exactly when adjacent |
| Umalloc.Heap.Take | lab6/lab6solutions/umalloc.c:75-84 | hands out the whole block or its tail of exactly the units asked for |
| Umalloc.SearchStops | lab6/lab6solutions/umalloc.c:30-32 | the loop's two exit conditions hold at a ring block if and only if it is the right place |
| Umalloc.FreeSound | lab6/lab6solutions/umalloc.c:24-44 | freeing any allocated block keeps ring, tiling and coalescing, and leaves a block at `freep` or after it at least as large |
| Umalloc.FreeTiled | lab6/lab6solutions/umalloc.c:33-42 | free and allocated blocks still tile exactly the units got from sbrk |
| Umalloc.AddCore | lab6/lab6solutions/umalloc.c:54-59 | memory from sbrk is new and becomes one allocated block before it is freed |
| Umalloc.TakeWhole | lab6/lab6solutions/umalloc.c:76-77 | unlinking an exact fit keeps the heap sound |
| Umalloc.TakeTail | lab6/lab6solutions/umalloc.c:78-82 | cutting the tail off a larger block keeps the heap sound |
| Umalloc.Disjoint | lab6/lab6solutions/umalloc.c:63-90 | any two blocks, free or allocated, do not overlap and lie below the break |
| Umalloc.UnitsFit | lab6/lab6solutions/umalloc.c:69 | the block is large enough for the request if and only if nbytes is at most 2^32 - 8, and then one unit less would not do; beyond that the rounding wraps |
| PageTables.Partition | lab5/200050157_lab5/vm.c:35-137 | the free list, pages held elsewhere and the pages each directory owns (directory, tables, user pages) partition the pool |
| PageTables.Conservation | lab5/200050157_lab5/vm.c:400-436 | free pages plus held pages plus what `getSizePgTable` and `getphysicalpages` report over all directories is the pool |
| PageTables.MapUserSound | lab5/200050157_lab5/vm.c:59-81 | mapping a held page at an unmapped user address keeps every page in one use and changes one mapping of one directory |
| PageTables.AddTableSound | lab5/200050157_lab5/vm.c:44-53 | a new page table changes no mapping of any directory |
| PageTables.UnmapSound | lab5/200050157_lab5/vm.c:271-277 | clearing a user mapping releases exactly its page |
| PageTables.DropDirSound | lab5/200050157_lab5/vm.c:284-299 | giving up a directory without user pages keeps all other directories' pages and mappings |
| PageTables.OwnedCounted | lab5/200050157_lab5/vm.c:400-436 | a directory owns exactly 1 + tables + user pages, all distinct |
| Vm.ScanResult | lab5/200050157_lab5/vm.c:256-280 | a page-by-page scan frees exactly the mapped pages of the range, last on top of the free list, and nothing else changes |
| Vm.SkipAbsent | lab5/200050157_lab5/vm.c:268-269 | jumping over the reach of an absent table frees the same pages as the scan |
| Vm.AllBack | lab5/200050157_lab5/vm.c:314-346 | pages that went into a directory and are released again leave every page used as before |
| Vm.RolledBack | lab5/200050157_lab5/vm.c:236-247 | undoing a partial growth restores every mapping; only page tables stay |
| Vm.CostNext | lab5/200050157_lab5/vm.c:231-248 | one page taken and mapped lowers the free list by exactly what the remaining range then costs less |
| Vm.Memory.constructor | lab5/200050157_lab5/kalloc.c:46-53 | `freerange` puts every page of the range on the free list once; the pool starts sound |
| Vm.Memory.Kalloc | lab5/200050157_lab5/kalloc.c:79-95 | takes the head of the free list, or 0 when it is empty |
| Vm.Memory.Kfree | lab5/200050157_lab5/kalloc.c:55-77 | the page becomes the head of the free list |
| Vm.Memory.FreeMemStat | lab5/200050157_lab5/kalloc.c:100-119 | PGSIZE times the length of the free list |
| Vm.Memory.WalkPgdir | lab5/200050157_lab5/vm.c:35-55 | the present table, or a new one if asked for and memory is left; mappings never change, and the directory gets that table and no other |
| Vm.Memory.MapPages | lab5/200050157_lab5/vm.c:57-81 | maps n pages, if and only if the free list covers the tables that are missing for them, or else a prefix of them; never meets "remap" under its precondition |
| Vm.Memory.SetupKvm | lab5/200050157_lab5/vm.c:118-137 | a new directory with exactly the kernel's mappings if and only if 65 pages are free, which it takes; otherwise 0 with every page used as before |
| Vm.RowsCost | lab5/200050157_lab5/vm.c:105-116 | each row of `kmap` takes the tables that the rows before it have not made, wherever the kernel's data starts; 64 in all |
| Vm.Memory.AllocUvm | lab5/200050157_lab5/vm.c:220-250 | new zeroed user pages for the whole range if and only if the free list covers the pages and the missing tables, which it takes; otherwise 0 with all mappings as before |
| Vm.Memory.DeallocUvm | lab5/200050157_lab5/vm.c:252-280 | the same state as a page-by-page scan of the range; no panic |
| Vm.Memory.FreeVm | lab5/200050157_lab5/vm.c:282-299 | exactly the directory's pages become free; other directories and pages stay |
| Vm.Memory.CopyUvm | lab5/200050157_lab5/vm.c:314-346 | for the pages before the first absent one: a new directory mapping fresh pages with the parent's flags and contents, plus the kernel, if and only if the free list covers 65 pages, the copied pages and a table for each 1024 of them; otherwise 0 with every page used as before; the panic exactly when memory lasts until an absent page below sz |
| Vm.Memory.GetPhysicalPages | lab5/200050157_lab5/vm.c:400-419 | the number of mapped user pages below sz; nothing changes |
| Vm.Memory.GetSizePgTable | lab5/200050157_lab5/vm.c:421-436 | 1 plus the number of present tables |
| Shell.RoundTrip | lab6/lab6solutions/sh.c:327-446 | printing any well-formed command tree, with parentheses only where needed, and parsing it gives the tree and consumes the line |
| Shell.ParsesIffWellFormed | lab6/lab6solutions/sh.c:327-446 | the trees that some line parses to are exactly those with non-empty words of ordinary characters and fewer than MAXARGS words per command |
| Shell.ParseShowParse | lab6/lab6solutions/sh.c:327-446 | printing what a line parsed to gives a line with the same parse |
| Shell.LineShown | lab6/lab6solutions/sh.c:344-359 | a printed line, at the end or before `)`, parses to its tree and stops there |
| Shell.BackShown | lab6/lab6solutions/sh.c:350-353 | a pipeline with any number of `&` is parsed up to what follows |
| Shell.PipeShown | lab6/lab6solutions/sh.c:361-372 | printed pipelines parse back, associating to the right |
| Shell.ExecShown | lab6/lab6solutions/sh.c:399-446 | printed commands and parenthesised blocks with redirections parse back |
| Shell.WordsShown | lab6/lab6solutions/sh.c:429-446 | the argument loop reads back any list of words and the redirections after it |
| Shell.OperatorModes | lab6/lab6solutions/sh.c:374-397 | what each operator does with the word after it: `<` reads it, `>` and `>>` write it |
| Shell.RedirsShown | lab6/lab6solutions/sh.c:374-397 | printed redirections parse back in order |
| Shell.NothingAfterBack | lab6/lab6solutions/sh.c:350-358 | a command after `&` on one line is always left over |
| Shell.LineWellFormed | lab6/lab6solutions/sh.c:344-359 | whatever the line, what the parser accepts is well-formed |
| Shell.NextToken | lab6/lab6solutions/sh.c:265-308 | every token but the end consumes input, and words are non-empty runs of ordinary characters |
| ShellCursor.ParseCommand | lab6/lab6solutions/sh.c:327-342 | the imperative parser returns what the grammar's function returns, panics included, for every line |
| ShellCursor.Cursor.GetToken | lab6/lab6solutions/sh.c:265-308 | the scanning loops return the token's slice and leave the position after trailing space |
| ShellCursor.Cursor.At | lab6/lab6solutions/sh.c:310-320 | `peek` skips space and tests the next character |
| ShellCursor.Cursor.ReadRedirs | lab6/lab6solutions/sh.c:374-397 | the loop wraps the command once for each redirection, outermost last |
| ShellCursor.Cursor.ReadWords | lab6/lab6solutions/sh.c:429-446 | the loop fills the arguments of the node under the redirections; the tenth word panics |
| ShellCursor.Cursor.ReadExec | lab6/lab6solutions/sh.c:415-446 | a block, or a simple command with redirections before and between words |
| ShellCursor.Cursor.ReadBlock | lab6/lab6solutions/sh.c:398-413 | a parenthesised line with redirections, or the panic |
| ShellCursor.Cursor.ReadPipe | lab6/lab6solutions/sh.c:361-372 | recursion to the right of `|` |
| ShellCursor.Cursor.ReadLine | lab6/lab6solutions/sh.c:344-359 | the loop over `&` and the recursion after `;` |
| Grep.Match | lab6/lab6solutions/grep.c:72-82 | 1 if and only if the pattern's denotation occurs in the text: at the start after `^`, anywhere otherwise, at the end before a final `$` |
| Grep.MatchHere | lab6/lab6solutions/grep.c:84-96 | the recursion terminates and is the matcher function |
| Grep.MatchStar | lab6/lab6solutions/grep.c:98-106 | the loop is the matcher function for `c*` |
| Grep.HereIffOccurs | lab6/lab6solutions/grep.c:84-96 | matching here is an occurrence starting here |
| Grep.HereIffPrefix | lab6/lab6solutions/grep.c:84-96 | matching here means that some prefix of the text is in the denotation |
| Grep.StarIffRun | lab6/lab6solutions/grep.c:98-106 | `c*` tries exactly the runs of characters that fit c |
| ProcTable.NoLostExit | lab6/lab6solutions/proc.c:181-319 | every run keeps: no process asleep in `wait` has a zombie child, every started process but init has a parent that is neither unused nor exited, init lives |
| ProcTable.ZombieIsReaped | lab6/lab6solutions/proc.c:254-319 | in every run from boot a zombie's parent is alive, does not sleep in `wait`, and its next scan finds a zombie |
| ProcTable.DoInv | lab6/lab6solutions/proc.c:68-561 | each step of fork, sleep, wakeup, kill, scheduling, exit and wait keeps that invariant |
| ProcTable.ExitInv | lab6/lab6solutions/proc.c:254-272 | exit hands its children to init and wakes everyone who would otherwise sleep in `wait` over a zombie child |
| ProcTable.ExitedAt | lab6/lab6solutions/proc.c:254-272 | what `exit` does to every entry, exactly: the process becomes a zombie with its running time, its children go to init, those asleep in its parent's `wait` run on, and those in init's exactly if init gets a zombie; nothing else changes |
| ProcTable.WaitInv | lab6/lab6solutions/proc.c:285-318 | reaping or going to sleep keeps the invariant |
| ProcWaits.WaitersWoken | lab6/lab6solutions/proc.c:254-319 | told by what processes did: in every run from boot, whoever went to sleep in `wait` and still sleeps has no zombie child, and the exit of any child makes it runnable; whoever went to sleep in `sleep` is made runnable by a `wakeup` of that address |
| ProcWaits.WakeupExactly | lab6/lab6solutions/proc.c:516-537 | `wakeup` makes exactly those runnable that sleep in `sleep` on that address and changes no other entry |
| ProcWaits.Sleeps | lab6/lab6solutions/proc.c:475-507 | a call of `sleep`, and a round of `wait` that has to wait, do sleep, and touch no other entry |
| ProcWaits.Rounds | lab6/lab6solutions/proc.c:285-318 | a round of `wait` sleeps, on the process itself, if and only if it has children, none of them a zombie, and is not killed |
| ProcWaits.NextSound | lab6/lab6solutions/proc.c:254-537 | every step keeps: sleepers sleep on what they wait for |
| ProcLives.PidsUnique | lab6/lab6solutions/proc.c:92-93 | in every run no two processes have the same pid, and a process keeps the pid it was born with |
| ProcLives.Families | lab6/lab6solutions/proc.c:185-272 | in every run the parent of a process is the one that forked it as long as that one has not exited, and init from then on; nobody's parent has exited |
| ProcLives.KilledExactly | lab6/lab6solutions/proc.c:541-561 | in every run a process is marked as killed if and only if `kill` was called with its pid while it existed, or its entry holds the mark of a `kill` that hit it before: while it was free, or in the life of a process whose fork gave up |
| ProcLives.StrayKill | lab6/lab6solutions/proc.c:541-561 | the second case happens, from any start: after `kill(0)` the next process that init forks is killed, and nobody named it |
| ProcLives.KillExactly | lab6/lab6solutions/proc.c:541-561 | of the processes in use `kill` marks exactly the one with the pid, and makes it runnable if it slept |
| ProcLives.ForkRun | lab6/lab6solutions/proc.c:185-226 | a successful `fork` can run to its end and changes only the child's entry: runnable, with the next pid, the forker as parent and no times |
| ProcLives.ForkGivenUp | lab6/lab6solutions/proc.c:192-202 | a `fork` that gives up leaves the entry free and nobody's child |
| ProcLives.WholeLife | lab6/lab6solutions/proc.c:185-363 | fork, run, exit and wait undo each other: if the parent has no other zombie child, the entry is free again and every other entry is as it was before the fork |
| ProcLives.TicksCounted | lab6/lab6solutions/trap.c:50-59 | only a tick moves the clock of the process table, and by one |
| ProcLives.NextSound | lab6/lab6solutions/proc.c:74-561 | every step keeps pids distinct, makers and parents in agreement, and marks accounted for |
| ProcCode.Table.Exit | lab6/lab6solutions/proc.c:254-272 | the loops over the table have exactly that effect |
| ProcCode.Table.Wait2 | lab6/lab6solutions/proc.c:321-363 | one scan reaps the first zombie child with its pid and times, gives up exactly without children or when killed, or sleeps |
| ProcCode.Table.AllocProc | lab6/lab6solutions/proc.c:73-96 | the first unused entry, with fresh pid and times |
| ProcCode.Table.Wakeup1 | lab6/lab6solutions/proc.c:516-527 | every sleeper on the channel and nobody else becomes runnable |
| ProcCode.Table.Kill | lab6/lab6solutions/proc.c:541-561 | marks the first process with the pid and wakes it |
| SleepWakeup.NoLostWakeup | lab6/lab6solutions/proc.c:473-536 | for any processes and interleaving of lock operations: when lk is free and the condition holds, nobody sleeps on the channel or is on the way to |
| SleepWakeup.WakeupReachesAll | lab6/lab6solutions/proc.c:473-536 | a wakeup by a holder of lk makes every process that had released lk in `sleep` runnable |
| SleepWakeup.FallsAsleep | lab6/lab6solutions/proc.c:475-507 | with both locks free a process that finds the condition false falls asleep, and both locks are free again |
| SleepWakeup.MakesTrue | lab6/lab6solutions/proc.c:516-537 | a process that makes the condition true and calls `wakeup` leaves everyone awake and both locks free |
| SleepWakeup.Continues | lab6/lab6solutions/proc.c:497-506 | a woken process gets its lock back when it is free and can consume the condition and leave |
| SleepWakeup.KilledContinues | lab6/lab6solutions/proc.c:541-561 | `kill` gets a sleeper out of `sleep`, with the lock held and the condition as it was |
| SleepWakeup.LocksProgress | lab6/lab6solutions/proc.c:475-537 | the two locks cannot deadlock: in every run the holder of ptable.lock can go on, and the holder of the other lock can unless it waits for ptable.lock |
| SleepWakeup.DoInv | lab6/lab6solutions/proc.c:475-536 | each lock step keeps mutual exclusion and who owes a wakeup |
| Accounting.Totals | lab6/lab6solutions/proc.c:88-96 | in every run the snapshot fields with the pending ticks equal the per-tick counts plus the ticks that fell inside sections, with their signs |
| Accounting.Wait2Exact | lab6/lab6solutions/proc.c:321-351 | without ticks inside sections `wait2` returns part 3's waiting count plus EMBRYO ticks, and part 3's running count |
| Accounting.Wait2Exactly | lab6/lab6solutions/proc.c:321-351 | in every run `wait2`'s totals differ from the per-tick counts by the sum, over the steps of that entry, of the ticks inside its sections; so each total is right if and only if its sum is zero |
| Accounting.OneCpuExact | lab6/lab6solutions/param.h:3 | if every step can run on the one CPU, no tick falls inside a section and both totals are right; ClockSections shows that they can |
| ClockSections.SectionsRun | lab6/lab6solutions/spinlock.c:25-125 | any number of CPUs with interrupts, nested `pushcli`, `ptable.lock` and `sched`: the sections that they complete, store by store and reading by reading, are a run of the accounting machine in which no tick falls inside a section of CPU 0 |
| ClockSections.OneCpuRun | lab6/lab6solutions/param.h:3 | so on one CPU, as configured, the totals that `wait2` returns are right in every run |
| ClockSections.DoInv | lab6/lab6solutions/spinlock.c:25-125 | every event keeps: interrupts are off on a CPU between `pushcli` and `popcli`, one CPU is inside `ptable.lock`, and only it has a section open, which it can complete |
| ClockSections.TickInside | lab6/lab6solutions/trap.c:50-58 | on a second CPU a run with a tick inside a section |
| ClockLocks.Nested | lab6/lab6solutions/spinlock.c:100-126 | it takes as many `popcli`s to undo as many `pushcli`s: however they nest and whatever other CPUs do, the last one leaves the interrupt flag as the first found it, unless `sched` has switched processes in between |
| ClockLocks.StaysOff | lab6/lab6solutions/spinlock.c:100-126 | if interrupts are off, `pushcli` and `popcli` leave them off, over whole runs |
| ClockLocks.HandlerAlone | lab6/lab6solutions/trap.c:49-60 | so a handler is not interrupted before it returns |
| ClockLocks.TimersCounted | lab6/lab6solutions/trap.c:50-59 | in every run each interrupt of the timer is counted exactly once, inside a section or between sections |
| ClockLocks.WholeSection | lab6/lab6solutions/proc.c:374-450 | with ptable.lock free any CPU can take it, carry out any section that is possible and release it; the step is taken, and the CPU's flag and counts and all other CPUs are as before |
| ClockLocks.PlainSection | lab6/lab6solutions/proc.c:220-224 | so with a change of state that reads no clock |
| ClockLocks.ReadingSplits | lab6/lab6solutions/proc.c:395-398 | a tick between the two readings of `scheduler` is counted on the other side of the first reading than one before it |
| ClockLocks.PushPop | lab6/lab6solutions/spinlock.c:104-126 | `pushcli` and `popcli` alone change nothing |
| ClockLocks.SchedRestores | lab6/lab6solutions/proc.c:416-436 | after `sched` the release of ptable.lock leaves interrupts as the process had them |
| ClockLocks.Interruptible | lab6/lab6solutions/proc.c:381-382 | a CPU outside all `pushcli`s can let interrupts in, and then takes them |
| Accounting.LostTicks | lab6/lab6solutions/proc.c:395-398 | with NCPU > 1: a run from boot to a zombie in which `wait2` reports h ticks less than the process has run, for every h |
| Accounting.LifeTimes | lab6/lab6solutions/proc.c:74-363 | a process that waits n ticks for the CPU and then runs for m ticks ends with exactly these times, for all n and m |
| Accounting.DoInv | lab6/lab6solutions/proc.c:442-450 | each state change keeps the relation between snapshots and per-tick counts |
| ProcCode.Table.UpdateStatistics | lab6/lab6solution-part3/proc.c:588-604 | part 3's loop counts one tick for each process by its state, EMBRYO for none |
| Pipe.Fifo | lab6/lab6solutions/pipe.c:77-121 | in every run the bytes read are a prefix of the bytes written, at most PIPESIZE in between, however often the 32-bit counters wrap |
| PipeCalls.CallsKept | lab6/lab6solutions/pipe.c:77-121 | in every run from `pipealloc` each byte of the stream was put by one call of `pipewrite`; what each call has put, over all its sleeps, is in order the beginning of its bytes, and all of them once when it has succeeded; what a call of `piperead` has taken is one contiguous piece of the stream, at most n bytes |
| PipeCalls.WriteEnds | lab6/lab6solutions/pipe.c:82-96 | `pipewrite` succeeds exactly when it has put all its bytes; a call that fails has put a proper beginning of them |
| PipeCalls.ReadEnds | lab6/lab6solutions/pipe.c:113-118 | `piperead` stops copying exactly with n bytes or an empty pipe |
| PipeCalls.NextSound | lab6/lab6solutions/pipe.c:77-121 | every step keeps what each call has put and taken in agreement with the stream |
| PipeEnds.EndOfFile | lab6/lab6solutions/pipe.c:60-121 | after the last close of the write end, whatever happens next: every read gets the bytes written before, as many as it asks for while they last, then none, and never waits |
| PipeEnds.BrokenPipe | lab6/lab6solutions/pipe.c:60-91 | after the last close of the read end, whatever happens next: nothing is read any more, no writer waits for room, and one that meets a full pipe fails |
| PipeEnds.WholeRead | lab6/lab6solutions/pipe.c:101-121 | a read with the lock free that finds bytes, or the write end closed, runs to its end without sleeping, takes min(n, available) bytes in order and leaves no writer asleep |
| PipeEnds.WholeWrite | lab6/lab6solutions/pipe.c:77-96 | a write with the lock free that finds room runs to its end, appends all its bytes and leaves no reader asleep |
| PipeEnds.MustSleep | lab6/lab6solutions/pipe.c:84-111 | a read that finds nothing and a write that finds no room go to sleep and leave the lock; the write wakes the readers first |
| PipeEnds.KilledGivesUp | lab6/lab6solutions/pipe.c:84-111 | a sleeper that is killed runs, takes the lock when it is free, and gives the call up if it would sleep again |
| PipeEnds.CloseWriteEnd | lab6/lab6solutions/pipe.c:60-75 | the last close of the write end wakes exactly the sleeping readers and moves no byte |
| PipeEnds.CloseReadEnd | lab6/lab6solutions/pipe.c:60-75 | that of the read end wakes exactly the sleeping writers |
| Pipe.StrandedExactly | lab6/lab6solutions/pipe.c:77-121 | a run passes through a state with the lock free and a reader asleep on a pipe that has bytes or no write end if and only if it kills a writer that waits for room while some reader sleeps |
| Pipe.NoWriterStranded | lab6/lab6solutions/pipe.c:77-121 | in every run, whenever the lock is free, no writer sleeps on a pipe that has room or no read end |
| Pipe.NoDeadlock | lab6/lab6solutions/pipe.c:77-121 | in runs without such a killing a reader and a writer never both sleep with the lock free |
| Pipe.KilledWriterStrands | lab6/lab6solutions/pipe.c:85-89 | the kill itself is what strands the sleeping readers, on a full pipe |
| Pipe.StrandingRun | lab6/lab6solutions/pipe.c:84-92 | a concrete run in which that happens |
| Pipe.DoInv | lab6/lab6solutions/pipe.c:59-121 | every step keeps the ring's contents, who holds the lock and why each sleeper may sleep |
| Pipe.PutCarries | lab6/lab6solutions/pipe.c:93 | a byte put at the wrapping index keeps the bytes in flight in order |
| Pipe.DropCarries | lab6/lab6solutions/pipe.c:116 | the byte taken is the oldest in flight |
| Pipe.Buffer.Fill | lab6/lab6solutions/pipe.c:84-94 | the loop puts bytes until done or full |
| Pipe.Buffer.Drain | lab6/lab6solutions/pipe.c:113-117 | the copy returns min(n, available) oldest bytes |
| Cricket.OneToken | lab7/200050157_lab7/cricket-semaphores.c:40-117 | for any number of matches and any scheduling exactly one token is on a semaphore, with a player or with the game thread |
| Cricket.SummariesRight | lab7/200050157_lab7/cricket-semaphores.c:89-117 | every summary shows 11 + 11 players and the sums and maximum of the scores of the 22 who played; nobody plays twice |
| Cricket.NoDeadlock | lab7/200050157_lab7/cricket-semaphores.c:40-121 | a reachable state without a possible step is the end: all matches summed, all players done |
| Cricket.OverFinished | lab7/200050157_lab7/cricket-semaphores.c:119-121 | at the end every player has scored once and the day's maximum is over all scores |
| Cricket.DoInv | lab7/200050157_lab7/cricket-semaphores.c:40-117 | each step of a player or the game thread keeps token, counters and summaries right |
| Emufs.FileSystem.DeleteEntity | lab10/lab10/emufs-ops.c:259-293 | terminates; clears exactly the subtree's inode bits and its files' block bits, closes its handles, keeps counters and bitmaps in step |
| Emufs.FileSystem.Delete | lab10/lab10/emufs-ops.c:295-365 | deletes the subtree, lowers the counters by its inodes and blocks, removes one entry of the parent and keeps the file system well-formed |
| Emufs.DeleteKeeps | lab10/lab10/emufs-ops.c:295-365 | after deletion the rest is again a tree whose entities are in their parents, with unshared marked blocks and right counters |
| Emufs.DeletedTree | lab10/lab10/emufs-ops.c:289-291 | no live entity remains in or points into the deleted subtree |
| Emufs.RemoveEntry | lab10/lab10/emufs-ops.c:342-354 | the shifting loop removes that entry and keeps the order of the others |
| Emufs.FileSystem.DeleteFile | lab10/lab10/emufs-ops.c:272-283 | frees ceil(size / BLOCKSIZE) blocks and closes the file's handles |
| Emufs.FileSystem.FreeInode | lab10/lab10/emufs-disk.c:370-387 | clears the bit and keeps the counter in step, also when it was clear |
| Emufs.FileSystem.FreeDatablock | lab10/lab10/emufs-disk.c:491-508 | the same for blocks |
| Emufs.FormatWellFormed | lab10/lab10/emufs-ops.c:46-82 | a newly created file system is well-formed |
| Emufs.FileSystem.Create | lab10/lab10/emufs-ops.c:367-430 | -1 exactly when the directory is full, the name is taken or no inode is free, and then nothing changes; otherwise a new empty entity, and the file system is well-formed again if and only if the handle is on a directory, which the code does not test |
| Emufs.CreateKeeps | lab10/lab10/emufs-ops.c:367-430 | creation keeps the tree, the parent links, the unshared blocks and the counters |
| Emufs.CreatedIn | lab10/lab10/emufs-ops.c:377-388 | if the file system is a tree after a creation, the parent was a directory |
| Emufs.FileSystem.AllocInode | lab10/lab10/emufs-disk.c:331-368 | the first free inode, counted, or -1 when there is none |
| Emufs.DeleteCloses | lab10/lab10/emufs-ops.c:273-287 | if open handles refer to live entities of their kind they still do: every handle on a deleted entity is closed |
| Emufs.FileSystem.OpenRoot | lab10/lab10/emufs-ops.c:128-144 | the first closed directory handle is opened on the root, or -1 when there is none |
| Emufs.FileSystem.ChangeDir | lab10/lab10/emufs-ops.c:221-242 | the handle is moved to whatever the path names; -1 exactly when the handle is out of range or there is no such path |
| Emufs.FileSystem.OpenFile | lab10/lab10/emufs-ops.c:432-458 | the first closed file handle is opened on whatever the path names; otherwise no open handle changes |
| Emufs.FileSystem.Close | lab10/lab10/emufs-ops.c:244-257 | closes that one handle |
| Emufs.AllocHandle | lab10/lab10/emufs-ops.c:84-110 | the loop finds the first closed handle, or -1 when all are open |
| EmufsRuns.HandlesExactly | lab10/lab10/emufs-ops.c:221-617 | from a new file system, over all runs of opening, moving and closing handles, creation, deletion, reading, writing and seeking: tree, bitmaps and counters stay well-formed, every open handle names a live entity of its own kind and no offset is past the end of its file, in all states, if and only if no `change_dir` goes to a file and no `open_file` opens a directory |
| EmufsRuns.StepExactly | lab10/lab10/emufs-ops.c:221-458 | a step from such a state leads to such a state if and only if it gives a handle an entity of its own kind; only a write that runs out of blocks changes which blocks are lost |
| EmufsRuns.HandlesAfter | lab10/lab10/emufs-ops.c:128-617 | what each call of a run does to the handles: which one changes and how, and that all others stay |
| EmufsRuns.OffsetsKept | lab10/lab10/emufs-ops.c:592-617 | in every such run each open file handle has an offset from 0 to the size of its file |
| EmufsRuns.StaleRun | lab10/lab10/emufs-ops.c:259-293 | from any new file system, a run after which a directory handle moved to a file, or a file handle opened on a directory, is open on a free inode |
| EmufsRuns.CorruptRun | lab10/lab10/emufs-ops.c:377-388 | from any new file system, a run that creates an entity in a file, after which no choice of heights makes the inodes a tree |
| EmufsRuns.BlocksExactly | lab10/lab10/emufs-ops.c:564-574 | over all runs with handles of their own kind, `used_blocks` is 3 plus the blocks of the files plus the lost blocks, and no block is lost if and only if no write ran out of blocks after it had taken one |
| EmufsData.NoGap | lab10/lab10/emufs-ops.c:576-582 | a write that starts at most at the old end leaves no gap: the file up to the write's end is the old bytes before the offset and then buf, and what was beyond stays |
| EmufsData.Volume.Write | lab10/lab10/emufs-ops.c:526-590 | through a handle: out of range fails; otherwise succeeds exactly when the file stays within 4 blocks and enough are free, and then buf is at the handle's offset, which moves on; the other bytes of the file and all other files are as before, and the tree, the bitmaps and the counters are sound; on failure the bytes are as before and, if blocks ran out, all are marked |
| EmufsData.Volume.Seek | lab10/lab10/emufs-ops.c:592-617 | moves the offset by nseek, or fails exactly when the handle is out of range or the new offset is negative or not before the end |
| EmufsData.Volume.WriteAt | lab10/lab10/emufs-ops.c:549-586 | the same write for an inode and an offset, without the handle |
| EmufsData.Volume.Extend | lab10/lab10/emufs-ops.c:564-574 | the loop takes the first free blocks until the file is long enough, or marks all that were free |
| EmufsData.Volume.Read | lab10/lab10/emufs-ops.c:460-524 | through a handle: the bytes of the file from its offset, which moves on, or -1 exactly when the handle is out of range or they go past the mapped blocks |
| EmufsData.Volume.ReadTwice | lab10/lab10/emufs-ops.c:460-524 | two reads in a row through a handle give the file's bytes in a row from its offset, exactly when both fit |
| EmufsData.Volume.WriteTwice | lab10/lab10/emufs-ops.c:526-590 | two writes in a row leave both buffers one after the other at the handle's old offset |
| EmufsData.Volume.SeekRead | lab10/lab10/emufs-ops.c:460-617 | a read after a seek starts at the old offset plus nseek |
| EmufsData.Volume.ReadAt | lab10/lab10/emufs-ops.c:509-520 | the same read for an inode and an offset |
| EmufsData.Volume.WriteBlocks | lab10/lab10/emufs-ops.c:578-582 | writes the buffer to the file's blocks and no other |
| EmufsData.Volume.AllocDatablock | lab10/lab10/emufs-disk.c:456-489 | the first free block after the metadata, counted, or -1 when there is none |
| EmufsData.GrownKeeps | lab10/lab10/emufs-ops.c:564-574 | one more block at the end of a file keeps tree, unshared marked blocks and counters |
| EmufsData.OthersKept | lab10/lab10/emufs-ops.c:578-582 | files whose blocks are not the written file's keep their bytes |
| EmufsData.DrainedLost | lab10/lab10/emufs-ops.c:565-570 | a write that runs out of blocks loses exactly the blocks that were free |
| EmufsData.BlocksCounted | lab10/lab10/emufs-disk.c:456-489 | the counter of used blocks is the metadata, the files' blocks and the lost ones |
| Emufs.CountsAfter | lab10/lab10/emufs-disk.c:379-383 | the bitmaps lose as many bits as the subtree has inodes and blocks |
| Emufs.Up | lab10/lab10/emufs-ops.c:289-290 | parents of a subtree's members are in it up to its root |
| Emufs.Down | lab10/lab10/emufs-ops.c:289-290 | entries of a subtree's directories are in it |
| Cipher.RoundTrip | lab10/lab10/emufs-disk.c:69-89 | decryption undoes encryption of every signed byte under every key, with C's truncating remainder |
| Cipher.RoundTripBack | lab10/lab10/emufs-disk.c:69-89 | encryption undoes decryption of every stored byte under every key |
| Cipher.WriteInode | lab10/lab10/emufs-disk.c:418-454 | decrypting a whole block, replacing one inode's bytes and encrypting it again leaves every other stored byte as it was, and the inode's bytes decrypt to what was written |
| Cipher.WriteThenRead | lab10/lab10/emufs-disk.c:389-454 | an inode that was written is read back, and any other inode of the block is read as before |
| Cipher.Encrypt | lab10/lab10/emufs-disk.c:69-76 | each byte of the range, and no other, is encrypted in place |
| Cipher.Decrypt | lab10/lab10/emufs-disk.c:78-89 | each byte of the range, and no other, is decrypted in place |

## Left out

- Disk hardware: a block write is atomic and never fails; a disk is the sequence of its blocks.
- LogMachine: its cache has no NBUF limit; the limit and its panic are in Bio, and LogBuffers says when operations and the log exhaust it. Reading the log header at boot and `sb` are the state's area.
- LogMachine.GroupCommit: a run stops at an overrun of the log area; LogSpace.BlockLost follows it through the next commit, with the buffers as they are then, to a crash before the header write. A compiler's or CPU's reordering of the unlocked reads is not modelled.
- LogDevice.Log: runs one process at a time; interleavings are in LogMachine.
- BufferRing.Cache.Bread: models a call that need not wait for the buffer's lock; waiting is a separate step in Bio.
- Bio: callers change data only under the buffer's lock and log or write it before release; a reference count does not overflow.
- Fs: the bitmap is a sequence of bits, not bytes with masks; inode types, link counts, device inodes, directories and paths are not modelled. The out-of-blocks panic is a false first result, with every block in use.
- Fs.OpenFile.Write: is one call with no other writer of the inode; calls that interleave are in FsWriters, on the file's bytes, where a chunk is what Fs.OpenFile.Operation does and running out of blocks is left out. A console or pipe behind the file descriptor is not modelled.
- Umalloc.Heap: sbrk is a parameter (granted or not, with a gap of foreign memory); requests of 2^31 bytes and more after rounding, where sbrk's signed argument turns negative, are excluded. Addresses count 8-byte headers.
- Umalloc.Heap.Malloc: results above 2^32 - 8 bytes are too small, as UnitsFit says; the contract is in units.
- Vm.Memory.AllocUvm: a page of the new part that is mapped already, where the code panics with "remap", is excluded.
- Vm.Memory: addresses are page-aligned and page numbers stand for pages; loaduvm, inituvm, copyout, clearpteu and the TLB are not modelled. The start of kernel data is a parameter; the two phases of kinit are one range of pages.
- ProcLives: pids are unbounded; the wrap of the 32-bit `nextpid` is not modelled.
- ProcTable: context switches, kernel stacks, the current CPU and file references are left out; `wait` and `wait2` are one step, and `wait` leaves the times for the next allocation to clear.
- SleepWakeup: one lock and one channel; the loop of wakeup1 under ptable.lock is one step.
- ClockSections: the timer's handler counts its tick at once when CPU 0 takes the interrupt; `tickslock` and the other locks are the calls of `pushcli` that they make.
- Accounting: one iteration of wakeup1 is one step, so ticks between iterations are covered; wrap of the 32-bit tick counter is not.
- Pipe: p->lock and sleep are atomic as SleepWakeup justifies; the last close of an end happens when no process is inside a call on it.
- Shell: runcmd and nulterminate are not modelled; the EXEC node that parseexec fills in place is rebuilt by value, and a NUL ends the line.
- Grep: the line-buffering loop of grep() is not modelled; strings hold no NUL.
- Cricket: printing and the tallies of won, lost and tied matches are not modelled.
- Emufs: path lookup, names, the superblock's layout, several mounts and `goto_parent`, which nothing calls, are not modelled; a call names the inode that its path leads to.
- Emufs.FileSystem.Delete: deleting the root, whose parent number is out of range, is excluded.
- Emufs.FileSystem.Create: whether the name is taken is a parameter; a handle on a file of a block or more, where the code writes past the inode, is excluded.
- EmufsData.Volume.Write: the size is not negative; it is about handles on files; a write through a file handle on a directory is excluded. Bytes past the old end that buf does not cover are not determined, as in the code.
- EmufsRuns.HandlesExactly: says nothing of what follows the first call with an entity of the other kind.
- Emufs.FileSystem.DeleteEntity: takes a bound on the height below each inode as a witness that directories contain no cycle.
- Cipher: the sum of byte and key does not overflow an int.
