# xv6 for RISC-V in Dafny

A model of the parts of the xv6 kernel, its image builder and three of its user programs whose
correctness does not show in any one function: the write-ahead log, the buffer cache, the file
system and its directory tree, page tables and the page allocator, processes with sleep and
wakeup, pipes, the virtio disk driver, the allocator `malloc`, the shell's parser and `grep`.
`dafny verify dfyconfig.toml` checks the whole project with Dafny 4.11.

Code that changes state in place is modelled by classes and methods with the source's fields,
loops and branches; concurrent code by steps that interleave freely, each step being what one
process, CPU or device does under the locks it holds.  Loops and methods are proved against
functions on values, and the theorems are about those functions and about the invariants.

| file | what it models |
|---|---|
| Log, LogAdmission | kernel/log.c: commit and recovery under power failure; admission of operations |
| BufferCache, CachedLog | kernel/bio.c: the LRU list, reference counts and contents; the log on top of it |
| FsState, FileSystem, Mkfs | kernel/fs.c, kernel/file.c, mkfs/mkfs.c: bitmap, block maps, files as byte sequences |
| FsRecovery | the file system on top of the log: inodes, free map and data as logged blocks, across crashes |
| LinkCounts, DirTree, Links | kernel/sysfile.c: directories, link counts, link, unlink, create |
| PageTable, Vm, AddressSpace, Teardown, UserCopy | kernel/vm.c, kernel/kalloc.c: page tables, frames, user memory |
| ElfImage, Loader, ExecImage, Exec | kernel/exec.c, kernel/elf.h: from the bytes of a file to a running image |
| ElfLink | files as a linker writes them, and that exec of one runs what was linked |
| ProcState, ProcSteps, ProcProofs, Proc | kernel/proc.c, kernel/sleeplock.c as a machine of interleaved steps |
| ProcRuns, ProcOps, ProcDeadlock | what its operations achieve from start to end, and that its locks never deadlock |
| Pipe, Virtio | kernel/pipe.c, kernel/virtio_disk.c: queues whose counters wrap |
| Shell, ShellWords | user/sh.c: the parser, and nulterminate |
| ShellGrammar, ShellParses, ShellDerives, ShellTrees | the shell's grammar by itself, and that the parser is exactly it |
| Umalloc, Grep | user/umalloc.c, user/grep.c |
| Basics, Counting | what several files share |

A crash is a budget: the disk accepts `power` more block writes and drops the rest, so a theorem
for all budgets covers a crash between any two writes.  Disk contents, sizes of free memory,
scheduling, copies from user memory that fail and answers of sbrk and read are parameters or
non-deterministic.  What the source panics on is a precondition, except where a row below says that
the panic cannot happen.

## What the code does not keep

Each of these has an input that shows the failure and the exact condition for success.

- The log is one block short: an append within its operation's budget of MAXOPBLOCKS can still panic
  in log_write.  It never does if and only if nlog >= LOGSIZE + 1 (`LogAdmission.BudgetsSafeIffRoom`);
  mkfs sets nlog = LOGSIZE.
- With a log that long, writing a block again that is in the log already, which takes no new slot, panics
  if and only if the log holds exactly LOGSIZE blocks; then every budget is used up
  (`LogAdmission.PanicIffFull`, `LogAdmission.FullLogRefusesAbsorption`).
- A root directory whose entries fill its last block exactly, 64 or a multiple, leaves mkfs with a
  file that has an unmapped block; every other image is a valid file system
  (`Mkfs.Mkfs.Finish`, `Mkfs.FullRootHasHole`).
- create or link inside a directory that was removed but is still open makes a link count wrong, and
  so does a count that passes 32767; nothing else does (`Links.Directories.Create`,
  `Links.Directories.EndLink`, `Links.Directories.BeginLink`, `Links.CreateAfterRemoval`,
  `Links.LinkOverflows`).
- A pipe writer that is killed between two bytes returns without a wakeup; a reader stays asleep
  in front of a filled pipe exactly in the case that `Pipes.Pipe.Write` names
  (`Pipes.KilledWriterStrandsReader`).
- kill(0) finds an UNUSED slot, whose pid is 0, and marks it; the next child made in that slot is killed
  before it has run.  A child starts unmarked if and only if its slot was unmarked, and no slot is ever
  marked while UNUSED without a kill(0) (`ProcRuns.ForkMakesChild`, `ProcRuns.StaysUnmarked`,
  `ProcRuns.KillZeroDoomsChild`).
- A copy from user memory that fails part of the way makes writei let go of a changed buffer without
  log_write.  The cache is spoiled if and only if the bytes that were copied differ from those they
  replaced (`BufferCache.FailedCopy`, `BufferCache.FailedCopySpoilsCache`).

## Model

| member | source | states |
|---|---|---|
| WriteAheadLog.Live | kernel/log.c:117-203 | after any number of lives, each a power budget with the transactions attempted in it, what recovery would yield is the initial home blocks with exactly the transactions whose header write completed applied, whole and in order; the home blocks themselves are that when the header on disk is empty |
| WriteAheadLog.LiveAndRecover | kernel/log.c:117-123 | after such lives a recovery with power to finish leaves an empty log and home blocks with exactly the durable transactions applied |
| WriteAheadLog.LivesSurvive | kernel/log.c:194-203 | what the step-by-step account of many lives ends with is the durable transactions applied one after the other |
| WriteAheadLog.PrefixSurvives | kernel/log.c:194-203 | what survives one life is a prefix of its transactions, cut where the power does not reach the header write, and once one is lost no power is left |
| WriteAheadLog.CommitAtomic | kernel/log.c:179-203 | for every budget p, a commit of n blocks leaves a disk that recovers to the old contents if p <= n and to the whole transaction if p > n, with the header naming the blocks exactly while n < p < 2n+2 |
| WriteAheadLog.RecoveryIdempotent | kernel/log.c:69-123 | recovery cut off after any number of writes recovers to the same contents; run to its end it empties the header and the home blocks are the recovered ones |
| WriteAheadLog.LoggedIsApplied | kernel/log.c:214-235 | absorbing repeated writes of a block loses nothing: the logged blocks placed home equal all updates applied in order |
| WriteAheadLog.Log.constructor | kernel/log.c:55-65 | initlog reads the header and recovers, to what the crash theorem calls recovered |
| WriteAheadLog.Log.ReadHead | kernel/log.c:87-97 | the in-memory header becomes the one on disk |
| WriteAheadLog.Log.WriteHead | kernel/log.c:103-114 | one block write that puts n and the n block numbers over the old header, or none without power |
| WriteAheadLog.Log.WriteLog | kernel/log.c:179-191 | the pinned buffers fill the log blocks as far as the power goes |
| WriteAheadLog.Log.InstallTrans | kernel/log.c:69-83 | the logged blocks are placed home in order as far as the power goes |
| WriteAheadLog.Log.Commit | kernel/log.c:194-203 | the disk becomes what the atomicity theorem is about, for every budget, and the power spent is 2n+2 |
| WriteAheadLog.Log.RecoverFromLog | kernel/log.c:117-123 | the disk becomes what the idempotence theorem is about |
| WriteAheadLog.Log.BeginOp | kernel/log.c:127-142 | an operation is admitted exactly when no commit runs and the budgets of all operations fit |
| WriteAheadLog.Log.LogWrite | kernel/log.c:215-235 | the pending updates become the old ones with this block's update; a block already logged takes no new slot |
| WriteAheadLog.Log.EndOp | kernel/log.c:147-175 | only the last operation out commits, and the header is empty afterwards |
| LogAdmission.RunsAreSafe | kernel/log.c:126-175 | in every interleaving of begin_op, log_write and end_op, committing implies no operation is outstanding, what is logged belongs to an active operation or is being committed, and logged blocks plus unused budgets fit LOGSIZE |
| LogAdmission.LastOutCommits | kernel/log.c:147-175 | end_op starts a commit if and only if it is the last operation out, and leaves the other operations' budgets alone |
| LogAdmission.LogDrains | kernel/log.c:126-175 | from every reachable state, when the active operations end and the commit is done, the log is as at boot and admits operations |
| LogAdmission.PanicMeansExhausted | kernel/log.c:214-221 | with nlog >= LOGSIZE + 1, log_write can panic only when the log is exactly full and every budget is used up |
| LogAdmission.PanicIffFull | kernel/log.c:214-221 | with nlog >= LOGSIZE + 1, in every interleaving, any log_write panics if and only if the log holds exactly LOGSIZE blocks, and then every budget is used up |
| LogAdmission.BudgetsSafeIffRoom | kernel/log.c:214-235 | appends within budget never panic in any interleaving if and only if nlog >= LOGSIZE + 1, for every nlog |
| LogAdmission.FullLogRefusesAbsorption | kernel/log.c:218-221 | for every nlog >= LOGSIZE + 1, a run after which a write of a block already logged panics, although it would change nothing in the log |
| BufferCache.Cache.constructor | kernel/bio.c:37-53 | the list built by binit is well linked, in order of use, and no buffer is valid or referenced |
| BufferCache.Cache.NoTwins | kernel/bio.c:59-89 | no block of a real device is ever in two buffers |
| BufferCache.Cache.UnusedIsClean | kernel/bio.c:72-85 | a valid unreferenced buffer equals its disk block and the latest contents, so recycling it loses nothing |
| BufferCache.Cache.Find | kernel/bio.c:65-72 | the scan finds the block's buffer if and only if there is one |
| BufferCache.Cache.FindUnused | kernel/bio.c:74-86 | the second scan finds the unreferenced buffer that was released longest ago, or none exists |
| BufferCache.Cache.BgetRef | kernel/bio.c:59-89 | a reference to the cached buffer, or the least recently used free one recycled; it fails only if every buffer is referenced; the invariants hold for all others |
| BufferCache.Cache.Fill | kernel/bio.c:93-103 | bread's buffer holds the block's latest logical contents, whether from the disk or the cache |
| BufferCache.Cache.LogWrite | kernel/log.c:214-235 | the contents become the latest ones and the first log_write of a block pins its buffer |
| BufferCache.Cache.Bwrite | kernel/bio.c:107-112 | contents, disk and latest agree on the block afterwards |
| BufferCache.Cache.Bunpin | kernel/bio.c:147-151 | after the block is installed its pin goes and the cache stays right |
| BufferCache.Cache.ReleaseBuf | kernel/bio.c:117-123 | a client that wrote what it changed may let go |
| BufferCache.Cache.ReleaseAnyway | kernel/bio.c:117-123 | letting go without writing keeps the cache right if and only if the contents are the ones last written |
| BufferCache.FailedCopy | kernel/fs.c:522-525 | writei's release after a failed copy leaves the partial bytes in an unlocked valid buffer, and keeps the cache right if and only if they equal the bytes they replaced |
| BufferCache.FailedCopySpoilsCache | kernel/fs.c:522-525 | a run after which a valid unlocked buffer differs from the latest contents of its block |
| BufferCache.Cache.DropRef | kernel/bio.c:117-137 | an unreferenced buffer moves to the front of the list, which stays well linked and in order of use |
| CachedLog.LogWrite | kernel/log.c:214-235 | logging a buffer keeps the cache's pinned blocks exactly the log's blocks, and the log's updates equal to the cache's latest contents of them |
| CachedLog.ReadLogged | kernel/log.c:179-191 | with other processes reading through the cache at any time, what write_log copies is a prefix of the logged updates in the header's order, and all of them unless every missing turn was spent waiting for a buffer |
| CachedLog.InstallLogged | kernel/log.c:69-83 | under the same interference, when install_trans is done nothing is pinned, the disk has exactly the logged updates on top of what it had, and every block's latest contents are as before |
| FsState.EachBlockOnce | kernel/fs.c:382-453 | ownership means that no two block pointers of any inodes name the same block, and the owned blocks are exactly those some pointer names |
| FileSystem.FileSystem.WriteThenRead | kernel/fs.c:471-539 | readi of the range that writei has just written returns the bytes written; writei refuses exactly beyond the end or the maximum size, and stops short only on a full disk |
| FileSystem.FileSystem.Balloc | kernel/fs.c:66-88 | the first free block, zeroed, outside the metadata and owned by nobody; 0 exactly when the disk is full |
| FileSystem.FileSystem.Bmap | kernel/fs.c:383-421 | the block of a file block, direct or indirect, allocated if missing; every other mapping and all ownership kept; a mapped block changes nothing |
| FileSystem.FileSystem.Readi | kernel/fs.c:472-496 | returns exactly the existing bytes of the range, and never allocates |
| FileSystem.FileSystem.Writei | kernel/fs.c:506-539 | -1 exactly beyond the end or the maximum size; otherwise the file is the old one with the written prefix spliced in and all other files are as before, fewer bytes only on a full disk; ownership, bitmap and no-holes are kept |
| FileSystem.FileSystem.Itrunc | kernel/fs.c:426-453 | the file becomes empty, all its blocks are free, and no bit is cleared twice, so "freeing free block" is unreachable |
| FileSystem.FileSystem.Ialloc | kernel/fs.c:199-219 | the first free inode gets the type; no file changes |
| FileSystem.FileSystem.Iput | kernel/fs.c:337-362 | with the last reference and no links the inode is emptied and freed, otherwise nothing happens |
| FileSystem.FileSystem.SetLinks | kernel/sysfile.c:144-146 | only the link count changes, in memory and on disk, and its block is logged |
| FileSystem.FileSystem.WriteTransaction | kernel/file.c:149-175 | every chunk logs at most MAXOPBLOCKS distinct blocks, whatever the offset and however many bitmap blocks, and everything that changed on disk lies in a logged block |
| FileSystem.FileSystem.FileWrite | kernel/file.c:135-181 | the file has exactly the bytes up to the new offset spliced in; the result is the count, or -1, which happens only beyond the end, beyond the maximum size or on a full disk |
| Mkfs.Mkfs.constructor | mkfs/mkfs.c:84-115 | a zeroed disk with only the metadata in use satisfies the image invariant |
| Mkfs.Mkfs.Iappend | mkfs/mkfs.c:255-296 | appends the bytes to the one file, across direct and indirect blocks, mapping exactly the blocks the size needs |
| Mkfs.Mkfs.Ialloc | mkfs/mkfs.c:223-234 | the next inode, empty, with one link |
| Mkfs.Mkfs.Bitmap | mkfs/mkfs.c:237-250 | a bit is set exactly for the blocks handed out |
| Mkfs.Mkfs.Finish | mkfs/mkfs.c:165-172 | the image satisfies the kernel's file-system invariant if and only if the root directory's size was not a multiple of the block size; then the root directory is padded with zero bytes to a whole block and every other file is unchanged |
| Mkfs.FullRootHasHole | mkfs/mkfs.c:165-170 | the shipped layout with a root directory of one full block is not a valid file system |
| Mkfs.EntriesFillBlock | mkfs/mkfs.c:165-170 | the failing sizes are those with a multiple of 64 entries |
| FsRecovery.RecoverSound | kernel/log.c:117-203 | a disk that holds a sound file system goes through any number of lives, each running the file system's transactions on what it found until the power fails somewhere; the recovery that completes leaves an empty log and the image of a sound file system: bitmap exact, every block owned once, no holes |
| FsRecovery.LivesSound | kernel/log.c:194-203 | what the step-by-step account of such lives ends with is the image of a sound file system |
| FsRecovery.RunApplies | kernel/log.c:194-203 | the first k transactions of a life turn the image it started from into the image of its k-th state |
| FsRecovery.StepApplies | kernel/log.c:214-235 | the contents of exactly the blocks passed to log_write turn the image before a transaction into the image after it, in any order of the blocks |
| FsRecovery.StepLoggable | kernel/log.c:214-235 | such a transaction stays outside the log area and fits a log with one block to spare |
| FsRecovery.ImageDetermines | kernel/fs.h:8-51 | the image of a sound file system determines its free map, inodes and data blocks |
| FsRecovery.Perform | kernel/fs.c:199-539 | what one call does to contents, types and link counts, with writes cut short only on a full disk |
| FsRecovery.Transact | kernel/log.c:126-175 | any calls of writei, ialloc, iput and link-count changes that share a commit do to files, types and link counts exactly what each call does alone, one after the other; they take a sound state to a sound state and log every block they change |
| FsRecovery.TransactChunk | kernel/file.c:149-175 | a chunk of filewrite is such a transaction, and always fits the log |
| FsRecovery.Mount | kernel/fs.c:290-319 | the inodes and blocks of a sound disk, read into memory, are a valid file system |
| FsRecovery.Work | kernel/log.c:126-175 | a life that mounts a sound disk and commits any groups of calls does what those calls do, and makes exactly the kind of transactions the recovery theorem is about |
| Links.Namecmp | kernel/fs.c:544-547 | zero exactly for names that agree in their first 14 characters |
| Links.Directories.constructor | mkfs/mkfs.c:117-128 | an empty root directory satisfies the tree invariant |
| Links.Directories.AddFile | mkfs/mkfs.c:152-157 | a file with a new name and one link in the first free inode, and its entry at the end of the root; nothing else changes |
| Links.Directories.Dirlookup | kernel/fs.c:552-575 | the first entry with the truncated name, or none has it |
| Links.Directories.Dirlink | kernel/fs.c:580-606 | succeeds if and only if the name is new and an entry is free or the directory can grow; the entry goes to the first free slot or the end |
| Links.Directories.IsDirEmpty | kernel/sysfile.c:174-186 | true exactly when no entry behind "." and ".." is in use |
| Links.Directories.BeginLink | kernel/sysfile.c:124-148 | directories are refused; the link count agrees with entries plus links in flight afterwards if and only if it did not overflow a short |
| Links.Directories.EndLink | kernel/sysfile.c:150-169 | the entry is written if and only if there is a directory, the name is new and a slot is free or the directory can grow; otherwise the count is lowered again; counts are exact if and only if no entry went into a removed directory |
| Links.Directories.Link | kernel/sysfile.c:124-170 | succeeds under exactly that condition for what is not a directory; then one more entry and one more link, otherwise nothing changes at all |
| Links.Directories.Unlink | kernel/sysfile.c:189-243 | succeeds if and only if the name is there, is not "." or "..", and is not that of a directory with children; the entry is cleared and the counts of child and, for a directory, parent drop by one; the panic on nlink < 1 is unreachable |
| Links.Directories.Create | kernel/sysfile.c:246-302 | makes the first free inode and its entry if and only if the name is new, an inode is free and every entry finds room; opens what is there if and only if a file is asked for and a file or device has the name; otherwise nothing changes; counts are exact if and only if the directory is still linked and its count does not overflow |
| Links.Directories.Iput | kernel/fs.c:337-362 | freeing an inode without links keeps counts and tree |
| Links.Directories.Run | kernel/sysfile.c:123-302 | over every sequence of calls, interleaved inside sys_link, that never targets a removed directory: each call does exactly what it does alone; every link count is the number of entries other than "." in linked directories plus links in flight, names in a directory are distinct, and each linked directory but the root hangs from exactly one entry of its parent |
| Links.Creation | kernel/sysfile.c:246-302 | the exact condition for create, for files and directories, on values |
| Links.CreateAfterRemoval | kernel/sysfile.c:246-302 | a state with a removed, open directory in which create makes a count wrong |
| Links.LinkOverflows | kernel/sysfile.c:146-147 | a state with 32767 links in which one more makes the count negative |
| DirTree.EmptyChildLinks | kernel/sysfile.c:189-243 | an empty directory has exactly one link, and its parent at least two |
| DirTree.MadeDirCounted | kernel/sysfile.c:276-294 | making a directory keeps counts exact if and only if the parent is linked and not at 32767 |
| PageTable.Path | kernel/vm.c:86-103 | the entries that translate a page lie in the tables owned by its prefixes, and end at a frame owned by that page or the kernel |
| PageTable.LinkKeepsMap | kernel/vm.c:95-99 | adding an empty table changes no translation |
| PageTable.WriteLeaf | kernel/vm.c:163-165 | writing a level-0 entry changes the translation of its own page and of no other page in any tree |
| PageTable.MadePte | kernel/riscv.h:366-371 | frame and permission bits of an entry can be read back |
| Vm.DistinctEntries | kernel/vm.c:86-103 | two pages reach the same entry if and only if they are the same page of the same tree |
| Vm.Memory.constructor | kernel/kalloc.c:27-40 | every frame from the kernel's end on is free, once |
| Vm.Memory.Kalloc | kernel/kalloc.c:69-82 | a free frame leaves the free list, or the list is empty and the result 0 |
| Vm.Memory.Kfree | kernel/kalloc.c:47-63 | the frame is free again and on the list once |
| Vm.Memory.Walk | kernel/vm.c:86-103 | the table that owns the page's entry; no translation of any tree changes, at most two free frames become tables; 0 means the page is unmapped, and with alloc that memory is out |
| Vm.Memory.Mappages | kernel/vm.c:144-172 | exactly the range is mapped to consecutive frames, no other translation changes; on failure exactly a prefix of it, for want of frames |
| Vm.Memory.Uvmunmap | kernel/vm.c:178-199 | exactly the range is unmapped, and its frames are free if asked for |
| AddressSpace.Uvmalloc | kernel/vm.c:233-256 | zeroed pages for exactly the new range with exactly the permissions asked for, or on failure the old mapping with every page given back; it fails only with fewer free frames than three for each page |
| AddressSpace.UserPermBits | kernel/riscv.h:360-364 | the pages of uvmalloc are open to user code, readable, writable if and only if PTE_W was asked for, and executable if and only if PTE_X was |
| AddressSpace.Uvmdealloc | kernel/vm.c:263-274 | exactly the pages above the new size are unmapped and free |
| AddressSpace.Uvmcopy | kernel/vm.c:313-340 | every page has a private copy with the same contents and permissions, or on failure no translation changed and every page allocated is free; it fails only with fewer free frames than three for each page |
| Exec.GrowAndUse | kernel/vm.c:233-256 | memory that uvmalloc gave with PTE_W can be written by copyout and read back, all of it |
| Teardown.Freewalk | kernel/vm.c:279-294 | exactly the tables under the given one become free |
| Exec.Uvmfree | kernel/vm.c:299-304 | every frame of the tree, leaf or table, is free and no other frame changed hands |
| Exec.ProcPagetable | kernel/proc.c:177-206 | a tree with only trampoline, to be executed, and trapframe, both closed to user code; or nothing changed, for want of frames |
| Exec.ProcFreepagetable | kernel/proc.c:211-216 | every frame of the process's tree is free, trampoline and trapframe are kept |
| Exec.Uvmclear | kernel/vm.c:345-353 | one page loses user access; no other translation changes |
| Exec.Exec | kernel/exec.c:23-141 | either the new program replaces the old one, all of whose frames are free: every byte and permission of the image is what the ELF file's headers ask for, the guard page is closed, the arguments and the array of pointers to them are on the stack, and entry and stack pointer are right; or frame ownership, translations and memory are exactly as before, which happens only if the file is not a program, the arguments are too many or do not fit a page, or frames are short |
| ElfLink.RunLinked | kernel/exec.c:23-141 | exec of the file a linker writes from parts (kind, flags, address, bytes, size): every part for memory is at its address with its bytes and zeroes behind them, writable and executable if and only if its flags say so, all else is zero; argc pointers and a null pointer stand at sp, each pointing to its argument; control starts at the entry point; it fails only if the arguments are too many or do not fit a page, or frames are short |
| ElfLink.HeaderRead | kernel/elf.h:25-34 | a program header written field by field is read back as it was |
| ElfLink.LinkHeader | kernel/elf.h:6-22 | and so is the file header |
| Exec.LoadSegments | kernel/exec.c:51-71 | the headers that are to be loaded, and only those, are mapped and filled in order; it fails exactly on an unreadable or insane header or missing bytes, or for want of frames |
| Loader.LoadSeg | kernel/exec.c:147-167 | exactly the segment's bytes reach exactly its addresses; it fails if and only if they are not all in the file |
| Loader.PushArgs | kernel/exec.c:88-114 | every argument with its zero byte, and the null-terminated array of pointers, 16-byte aligned, on the stack page and nowhere else; it fails if and only if they are more than MAXARG or do not fit |
| ElfImage.ZeroBeyond | kernel/exec.c:51-71 | beyond what the segments cover the image is zero |
| UserCopy.Copyout | kernel/vm.c:359-383 | exactly the bytes of the range change; it stops exactly at the first byte that may not be written |
| UserCopy.Copyin | kernel/vm.c:389-408 | returns the bytes the translations lead to and changes nothing; it stops exactly at the first unreadable byte |
| UserCopy.RoundTrip | kernel/vm.c:358-408 | copyin after a successful copyout returns the same bytes, which happens if and only if the range is writable |
| ProcProofs.StepKeeps | kernel/proc.c:279-616 | every step of every process and CPU keeps the whole invariant |
| Processes.RunsAreSafe | kernel/proc.c:279-616 | so does every interleaving, with fork and its failure, exit, wait, scheduling, preemption, kill, sleep, and wakeup by processes and by interrupt handlers |
| Processes.NoLostExit | kernel/proc.c:346-435 | with wait_lock free, no process sleeps in wait while it has a zombie child |
| Processes.ParentsAlive | kernel/proc.c:331-386 | a parent is never UNUSED, USED or a zombie |
| Processes.CollectedOnce | kernel/proc.c:391-435 | no pid is returned twice by wait |
| ProcRuns.CollectedIsExitArgument | kernel/proc.c:346-435 | every status returned by wait is the argument that the process with that pid gave to exit, in a step of the run |
| ProcRuns.ForkMakesChild | kernel/proc.c:279-325 | a fork makes a runnable child of the caller with a pid nobody has, which any idle CPU can run; nothing else changes, and the child is marked as killed if and only if its slot was |
| ProcRuns.ForkedChildRuns | kernel/proc.c:321-323 | whatever others did since allocproc, the last step of fork makes the child, still USED and the caller's, runnable |
| ProcRuns.KillMarks | kernel/proc.c:597-615 | the victim is marked and not left asleep, and nothing else changes |
| ProcRuns.KillSticks | kernel/proc.c:597-615 | whatever is done afterwards, the victim is marked until it is gone |
| ProcRuns.StaysUnmarked | kernel/proc.c:597-615 | in every run without kill(0) no UNUSED slot is marked as killed |
| ProcRuns.KillZeroDoomsChild | kernel/proc.c:597-615 | kill(0) followed by a fork into the slot it found makes a child that is killed |
| ProcOps.ExitCompletes | kernel/proc.c:331-386 | exit from its first step to its last: exactly the children go to init, which is woken if there are any; the parent is woken; the status is kept in a zombie that no CPU runs; wait_lock is free; nothing else changes |
| ProcOps.WaitCollects | kernel/proc.c:391-435 | wait with a zombie child returns the first one's pid and status and frees its slot, and changes nothing else |
| ProcOps.WaitReturns | kernel/proc.c:424-428 | wait without a zombie child returns at once, with nothing changed, if the caller has no children or was killed |
| ProcOps.WaitSleeps | kernel/proc.c:430-432 | otherwise it goes to sleep, with wait_lock free and its CPU idle |
| ProcOps.SleepOnCompletes | kernel/proc.c:548-573 | sleep gives up the lock and the CPU |
| ProcOps.SleepReturns | kernel/proc.c:567-573 | once woken and scheduled, sleep returns with the lock held |
| ProcOps.WakeupCompletes | kernel/proc.c:579-592 | wakeup makes exactly the processes asleep on the channel runnable |
| ProcDeadlock.InterruptCompletes | kernel/proc.c:579-592 | the same for an interrupt handler |
| ProcOps.YieldTransparent | kernel/proc.c:511-518 | a process that is preempted and scheduled again goes on as if nothing had happened |
| ProcOps.AcquireCompletes | kernel/sleeplock.c:22-32 | acquiresleep takes a free lock, and goes to sleep on a held one |
| ProcOps.ReleaseCompletes | kernel/sleeplock.c:34-41 | releasesleep frees the lock and wakes exactly its sleepers |
| ProcDeadlock.NoDeadlock | kernel/proc.c:279-616 | from every reachable state the holders of spin locks can go on by themselves until every p->lock, wait_lock, sleep lock's inner lock and other spin lock is free |
| ProcDeadlock.NothingRefused | kernel/proc.c:279-616 | and then a process in user code can begin every operation |
| ProcDeadlock.InsideNothingRefused | kernel/proc.c:548-592 | and one that holds a driver's lock can sleep, call wakeup or release it |
| Processes.NoExitLost | kernel/proc.c:347-435 | every exited pid was returned by wait or is a zombie that still holds its status |
| Processes.FreedOffCpu | kernel/proc.c:405-418 | wait's freeproc never runs on a process that a CPU is executing or has yet to unlock |
| Processes.FailedForkOffCpu | kernel/proc.c:291-296 | nor does fork's |
| Processes.WaitFailsRightly | kernel/proc.c:424-431 | wait gives up only without children or when killed |
| Processes.RunsOnce | kernel/proc.c:445-508 | a RUNNING process is current on exactly one CPU |
| Processes.OneCpuEach | kernel/proc.c:445-519 | no two CPUs have the same process, running or just switched from |
| Processes.NoLostWakeup | kernel/proc.c:548-592 | for any spin lock and channel: when a wakeup by the lock's holder is done, no process that let go of the lock inside sleep on the channel is still asleep there |
| Processes.NoLostInterrupt | kernel/proc.c:579-592 | the same for a wakeup by an interrupt handler that holds the lock, on a CPU with or without a process |
| Processes.ParentWoken | kernel/proc.c:363-380 | when a process becomes a zombie its parent is not asleep in wait |
| Processes.GuardExclusive | kernel/proc.c:548-592 | the lock that a process sleeps under has at most one holder across sleep's hand-over |
| Processes.SleepLockExclusive | kernel/sleeplock.c:22-41 | at most one process holds a sleep lock |
| Processes.HoldingSleepExact | kernel/sleeplock.c:44-52 | the test on locked and pid is right for every running process |
| Processes.NoLostRelease | kernel/sleeplock.c:22-41 | with the inner lock free, a process sleeps on a sleep lock only while somebody holds it |
| Processes.WakeupReachesAll | kernel/sleeplock.c:34-41 | when releasesleep's wakeup is done nobody is asleep on the lock |
| Pipes.RingFifo | kernel/pipe.c:77-130 | bytes taken out followed by bytes in the ring are the bytes put in, and the full and empty tests are right, however often the 32-bit counters wrapped |
| Pipes.Pipe.Write | kernel/pipe.c:77-103 | a prefix of the bytes is appended; with the lock free afterwards a sleeping reader means an empty pipe and a sleeping writer a full one, except exactly when a reader slept and the kill comes between two bytes, before the pipe is full and before a byte that cannot be fetched |
| Pipes.Pipe.Read | kernel/pipe.c:106-130 | the first bytes in order, at most n; sleeps exactly on an empty open pipe; the sleepers' invariant is kept |
| Pipes.Pipe.Close | kernel/pipe.c:59-74 | closing wakes the other side and keeps the invariants |
| Pipes.KilledWriterStrandsReader | kernel/pipe.c:84-87 | a run that leaves a reader asleep before a filled pipe |
| Virtio.Disk.AllocDesc | kernel/virtio_disk.c:157-166 | a free descriptor, or none is free |
| Virtio.Disk.Alloc3 | kernel/virtio_disk.c:202-213 | three distinct free descriptors, or fewer than three were free and all are free again |
| Virtio.Disk.Submit | kernel/virtio_disk.c:216-276 | three free descriptors become one chain that offers this request to the device, or the thread sleeps; free descriptors and disjoint chains partition the table, and nobody sleeps with three descriptors free |
| Virtio.Disk.Take | kernel/virtio.h:62-68 | the device, as section 2.6.6 of VIRTIO 1.1 has it, takes the oldest offered chain out of the avail ring, across 16-bit wrap |
| Virtio.Disk.Complete | kernel/virtio.h:70-81 | the device, as section 2.6.8 of VIRTIO 1.1 has it, moves the data of exactly the request it took and reports it in the used ring |
| Virtio.Disk.Handle | kernel/virtio_disk.c:310-323 | each used entry names the buffer that issued the request, which completes for the first time |
| Virtio.Disk.Intr | kernel/virtio_disk.c:295-327 | everything reported is handled |
| Virtio.Disk.Finish | kernel/virtio_disk.c:278-291 | the waiting thread's chain, and no other, is free again, its slot forgets the buffer, and sleepers are woken |
| Virtio.Disk.FreeChain | kernel/virtio_disk.c:186-197 | following the next fields frees exactly the chain's three descriptors |
| Umalloc.Allocator.FindPlace | user/umalloc.c:30-32 | the scan finds the one place in address order, in fewer steps than the list has blocks |
| Umalloc.Allocator.Free | user/umalloc.c:25-44 | the list stays circular, in address order, disjoint and fully coalesced; exactly this block stops being live and the units are the same |
| Umalloc.Allocator.Morecore | user/umalloc.c:47-61 | exactly the units obtained from sbrk are added, as free units; live blocks are untouched |
| Umalloc.Allocator.Malloc | user/umalloc.c:64-90 | exactly one new live block of the size asked for, disjoint from all others; at most one sbrk, made only if no free block fits; units are the old ones, plus exactly that sbrk's; 0 only if sbrk refused, with nothing changed |
| Umalloc.Allocator.MallocBytes | user/umalloc.c:64-90 | the block has room for the bytes asked for, less than one unit more, behind its header |
| Umalloc.FreeEffect | user/umalloc.c:33-43 | on values: inserting and joining with either neighbour keeps units and all other live blocks |
| Shell.GetToken | user/sh.c:267-309 | the token the grammar names, and where the next begins |
| Shell.ParseCommand | user/sh.c:329-343 | ends on every line, with the tree the recursive descent gives or a syntax error |
| ShellDerives.ParserIsGrammar | user/sh.c:329-447 | a line parses to a command if and only if it is a way to write that command in the shell's grammar, with any blanks, any number of redirections anywhere among the words, pipes and lists to the right; it is a syntax error if and only if the grammar cannot write it |
| ShellParses.Accepts | user/sh.c:329-447 | whatever the grammar writes, in whatever spelling, is parsed to the command it stands for |
| ShellTrees.RoundTrip | user/sh.c:329-447 | every command with fewer than MAXARGS words per simple command can be written with parentheses only around what needs them, and the parser inverts it whatever blanks stand between the lexemes |
| ShellTrees.PrintedRoundTrip | user/sh.c:329-447 | in particular its printed form |
| ShellWords.LineOk | user/sh.c:345-447 | every word of a parsed tree is a maximal run of word characters of the line |
| ShellWords.NulTerminate | user/sh.c:451-494 | zero bytes at the ends of exactly the tree's words, nothing else changes |
| ShellWords.ParseCmd | user/sh.c:329-343 | every stored word reads back, up to its zero byte, as exactly its token |
| Grep.Match | user/grep.c:73-82 | true exactly for the texts in the denotational language of the pattern |
| Grep.MatchHere | user/grep.c:85-96 | true exactly if a prefix of the text, or all of it under $, is in the language of the items |
| Grep.MatchStar | user/grep.c:99-106 | true exactly if some number of characters the starred one stands for can be skipped |
| Grep.Grep | user/grep.c:12-35 | for input and pattern without NULs the output does not depend on how read splits the input; with lines of at most 1022 characters it is exactly the matching newline-terminated lines |
| Grep.ShortLinesAll | user/grep.c:12-35 | up to that length the buffer loses no line |

## Left out

- Device registers, traps, assembly and boot code; swtch is an atomic hand-over of a CPU.
- Memory ordering and the atomic swap inside spin locks; acquire and release are atomic.
- Path names: skipelem and namex; link, unlink and create take the directory that nameiparent found.
- The file table, file descriptors and devices of kernel/file.c and kernel/sysfile.c.
- The in-memory inode table of kernel/fs.c, except iput's test for the last reference.
- copyinstr, uvmfirst, growproc and the kernel's own page table.
- Exec.Exec: the file is given by its contents, so name lookup and locking of the inode are left out, and so is what the process's name becomes; exactly MAXARG arguments, for which exec's array has no room for the null pointer and which sys_exec never passes, are excluded.
- FileSystem.FileSystem.Writei: assumes that copies from user memory succeed; a failing one is what BufferCache.FailedCopy is about.
- FsRecovery.RecoverSound: the directory entries in the data blocks are bytes here; what Links proves of them is not carried across crashes.
- Major and minor device numbers of inodes.
- Links.Directories.Run: does not model crashes between the system calls, nor directories larger than a file can be.
- Umalloc.Allocator.MallocBytes: assumes requests that fit sbrk's int argument.
- Virtio.Disk.Complete: the device completes requests in any order, but its errors, which the driver panics on, are not modelled.
- Running the parsed commands, printing, the console and system-call argument fetching.
- Fairness: nothing is claimed about when a runnable process runs.
