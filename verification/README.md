# A verified model of the kernel's storage, memory and process cores

This project models the parts of an xv6 kernel with lazy allocation, copy-on-write fork and swapping to a
file that are hardest to get right, and proves what they promise.

**The write-ahead log** (log.c over bio.c). `LogMachine` is a step machine: a step is one critical section of
one process, one block write of the committing process or of recovery, the recycling of a buffer, or a power
failure. The cache has NBUF buffers, with their locks and counts. A sequence of labels is any interleaving. `LogRefinement` shows that every run refines an atomic
transactional disk (the blocks as last logged, and the blocks as of the last header write). `LogTheorems`,
`LogRecovery`, `LogAdmission` and `LogBuffers` draw the consequences, and `LogDevice` is log.c as imperative code over an array
of blocks, whose `Commit`, `EndOp`, `LogWrite` and `RecoverFromLog` are shown to be runs of the machine.

**Virtual memory** (vm.c, the frame half of kalloc.c, the swap half of fs.c). `VmState` has the page table
entries, the free list, the reference counts, the frames, and the swap device: the bins of the swap map and the
bytes of the swap file, together with the swapped pages and slots they stand for. `Sound` is the bookkeeping
invariant; `a in Refined(k, cap)` says moreover that the state `k`, with a swap file of `cap` slots, shows each
address space the private pages `a`, and that bins, bitmap and slots on the device are exactly those of the
swapped pages. `Vm` is the code, `VmMachine` runs it under any sequence of loads, stores, fork, sbrk, swap and
exit, and `VmRuns.Replay` is the reference: a private map from page to contents for each process, fork an eager
copy, pages never stored to zero. `Machine.Run` also gives back the states a run went through, and `VmHistory` says
what holds along them. `SwapMap`, `LinkedList` and `SwapFile` are the hash map, its lists in memory and the
swap file byte by byte; `VmGuard` is a run into the one case that breaks the accounting.

**The kernel heap** (`KernelHeap`, kalloc.c), **the process table** (`ProcTable` and
`ProcSteps`, proc.c), **sleep, wakeup and
sleep locks** (`SleepWakeup`, proc.c and sleeplock.c), **pipes** (`PipeFifo`, pipe.c), **file contents and block
allocation** (`Inodes`, fs.c), **the buffer cache ring** (`BufferCache`, bio.c), **the regular expression
matcher** (`Grep`, grep.c) and **the shell's parser** (`ShellParser`, sh.c). `Sums` holds sums over maps, `Common` what several modules share.

Conventions. A `panic` ends a run, and nothing is said of the state after it. A section under one spin lock is
one step, and so is a call of the page fault handler. Disk writes are atomic block by block. No code was executed for
this project: what is claimed below is what the contracts state.

## What turned out differently from the documentation

The code is modelled as it is. Where it does less than its comments say, there is a counterexample and the exact
condition.

- The comment before `begin_op` counts on MAXOPBLOCKS blocks for each operation, and the reservation suffices
  to keep the header within LOGSIZE (`ReservationSuffices`). But `log_write` tests for a full header or log before
  it looks for the block: `LogWritePanicsIff` gives the condition. In a log region larger than LOGSIZE the block
  refused is always one already listed. In the region that mkfs.c makes, LOGSIZE blocks with the header, the tenth
  new block of a third operation is refused. `FrugalPanics` has a run to the panic from every machine that has just
  started, for every size of the log, in which no operation exceeds its share.
- NBUF is no larger than LOGSIZE, so the commit itself may find no buffer. With nobody else at the buffers its
  reads panic if and only if NBUF listed blocks are not in place yet, hence never when the log region has at most
  NBUF blocks (`CommitPanicsIff`, and `StarvedIff` for what can be told before `end_op`). `CommitPanics` is a run to
  it in a larger region, `ReaderPanics` one in the region of mkfs.c with a single reader outside any operation.
  These two panics are the only ones (`OnlyPanic`).
- `handle_pagefault` accepts the page that begins exactly at the size of the process (vm.c:636). What is stored
  there is found after growing over it: `StoreBeyond` is such a run from boot, and in `EndPageExposed` the load
  agrees with memory as it is meant if and only if a zero was stored. Beyond the ends there are only zeroes
  through a whole run if and only if nothing else is ever stored there (`CleanRunIff`), and such a run is one on
  memory as it is meant, in which pages a process grows over are zero (`MeantRun`).
- The read of a guard page that is shared copy-on-write makes `lazyalloc` overwrite its entry. The frame then has
  a count one above its owners (`HandlePageFault`, `OverwriteLeaks`, and the run of `GuardLeaks`); in every other
  case accounting is kept. The page is then accessible, and so is one that is written while its frame is shared:
  `GuardLost` is the condition in the contract of `HandlePageFault`.
- `sbrk` does not stop at KERNBASE. Loads and stores beyond it are refused; fork, swap and shrinking of such a process
  walk over the kernel's entries, where `Machine` stops.
- `sbrk` down to exactly nothing frees every page and still fails, with the size unchanged (event `Wiped`).
- A slot that does not fit in the largest file is lost. At the first such slot the unchecked seek still lies in
  the file. Beyond it the seek fails and the page is written over the bitmap and what follows. The file then
  holds what it should if and only if the page equals the bytes it falls on (`Out`, `LostIff`); `FillUp` gets
  there from a new file for every bitmap of 3 to 7168 bytes.
- SEEK_END counts on from the end of the file instead of back from it (`FileSeek`).
- `kill(0)` marks the first unused entry, and `allocproc` does not clear the mark, so that the next process there
  is born killed (`KillZero`); `MarkedUnusedIff` and `BornKilledIff` say when.
- `kmalloc` of 2^32-15 to 2^32-8 bytes passes the guard of `morecore`, whose product wraps to zero, and takes
  every page there is (`GuardWraps`, `KMalloc`). The block is too small for the request if and only if
  nbytes + 7 reaches 2^32 (`PayloadSuffices`).
- A writer that leaves `pipewrite` because it was killed does not wake the readers it fed
  (`KilledWriterStrandsReader`). A step leaves a reader asleep before bytes if and only if it is a section of a
  killed writer with more than 512 bytes left (`StrandedIff`, and `CalmRunIff` for whole runs).
- The shell opens the files of `>` and `>>` alike.

## Model

| member | source | states |
|---|---|---|
| `LogMachine.WithEntries` | log.c:102-113 | The header block that write_head writes lists exactly the given block numbers, and reading it back gives them again; the words behind them keep what they held |
| `LogRefinement.TickRefines` | log.c:70-122 | Each block write of commit or of recovery keeps the correspondence with the transactional disk: the header write is its commit, every other one changes nothing there |
| `LogRefinement.StepRefines` | log.c:126-233 | Each step of any process, of the commit, of recovery, of the cache and each power failure is its step on the atomic transactional disk |
| `LogRefinement.RunRefines` | log.c:54-233 | Every interleaving of begin_op, bread, changes, log_write, brelse, recycling, end_op, commit and crashes refines the atomic transactional disk |
| `LogTheorems.ReadsSeeLastLogged` | bio.c:62-116 | After any run a bread returns the data last logged for the block, whether it comes from the cache or from disk |
| `LogTheorems.HomeChangesOnlyByInstall` | log.c:70-82 | A home block changes on disk only when install_trans copies it, and then to the contents of the last commit |
| `LogRecovery.DurableChangesOnlyByHeader` | log.c:193-202 | What recovery would make of a home block, from the disk and the header on it, stays the same in every step except the header write of a commit, and then becomes the cached data of the block if it is listed; no operation is open at that step |
| `LogRecovery.RecoveredIsDurable` | log.c:116-122 | In every state of every run, installing the log blocks that the header on disk lists gives the durable contents of each home block |
| `LogTheorems.Settled` | log.c:146-202 | With no operation open and no commit pending, home blocks on disk are what was logged and what is durable |
| `LogTheorems.FateOfTransaction` | log.c:70-122 | From any point of a commit or a recovery, through any number of power failures, a finished recovery leaves each home block as the number of block writes before the first failure decides |
| `LogTheorems.CrashAtomicity` | log.c:178-202 | A commit cut off by power failures after any block write, and any number of failures in recovery, ends with all home blocks new if the header write came before the first failure, and with all old otherwise |
| `LogTheorems.CrashReturnsToLastCommit` | log.c:116-122 | After any run, a power failure and a complete recovery bring back the state of the last header write |
| `LogAdmission.ReservationSuffices` | log.c:126-141 | In every run in which no operation adds more than MAXOPBLOCKS block numbers, the reservation of begin_op keeps the header within LOGSIZE |
| `LogAdmission.LogWritePanicsIff` | log.c:214-233 | log_write of an operation within its share panics if and only if the header is full or the log is, whatever the size of the log region; it refuses a new block only in a region of at most LOGSIZE blocks |
| `LogAdmission.FrugalPanics` | log.c:214-233 | From every machine that has just started, whatever the size of its log, operations within their shares fill header or log, and the next log_write panics |
| `LogAdmission.LastPanics` | log.c:214-233 | The block refused in that run is already listed if and only if the log region is larger than LOGSIZE |
| `LogAdmission.FreshRefined` | log.c:54-66 | A machine that has just started with an empty header stands for the disk it has, within budget and within the buffers |
| `LogAdmission.CommitExcludesOperations` | log.c:146-174 | No operation is open while a commit runs |
| `LogAdmission.OnlyPanic` | log.c:70-233 | A step panics if and only if it is a log_write at a full header or log, or a bread, by a process or by the commit, of a block that is not cached while all NBUF buffers are dirty or in use |
| `LogBuffers.CommitPanicsIff` | bio.c:87-99 | With nobody else at the buffers a read of the commit or of recovery panics if and only if it is the first one of a turn of the commit and NBUF listed blocks are not in place; never when the log region has at most NBUF blocks |
| `LogBuffers.StarvedIff` | log.c:146-174 | Before end_op of the last operation: its commit will find no buffer if and only if NBUF blocks are listed |
| `LogBuffers.CommitPanics` | bio.c:87-99 | In a log region larger than LOGSIZE, three operations of ten blocks each end in a commit that panics |
| `LogBuffers.ReaderPanics` | bio.c:87-99 | In the log region of mkfs.c, a full log and one buffer held outside any operation end in a commit that panics |
| `LogBuffers.AtMostThree` | log.c:126-141 | In every run at most three operations are open at once |
| `LogBuffers.ThreeCommit` | log.c:126-174 | Three operations that begin together and log any number of blocks that fit go into one commit, at the end of the last of them |
| `LogBuffers.SecondOverlaps` | log.c:126-141 | A second operation begins although the first has logged a block, and a third then sleeps |
| `LogBuffers.RunBounded` | bio.c:62-100 | After any run no more blocks are cached than there are buffers, and the commit has called bget only for what it reads next |
| `LogBuffers.DirtyIsPending` | log.c:214-233 | While the system is up the dirty buffers are exactly those of the listed blocks that are not in place yet |
| `LogAdmission.NobodyStranded` | log.c:126-174 | In every run, a process sleeps in begin_op only while a commit runs or its ten blocks do not fit behind the blocks listed and those of the open operations, and then a commit is running or an operation is open whose end wakes it |
| `LogAdmission.BeginSleepsIff` | log.c:126-141 | begin_op is possible for a process outside any operation once recovery is over; it sleeps if and only if a commit runs or the blocks listed and ten for each open operation and itself exceed LOGSIZE, and otherwise opens an operation that has logged nothing; nothing else changes |
| `LogDevice.LogTurnIsTick` | log.c:182-189 | A turn of the loop of write_log, after its two reads, is one step of the machine |
| `LogDevice.HomeTurnIsTick` | log.c:74-81 | A turn of the loop of install_trans, after its two reads, is one step of the machine, in a commit and in recovery |
| `LogDevice.HeadTurnIsTick` | log.c:102-113 | The header write at the commit point, after its read, is one step of the machine |
| `LogDevice.EraseTurnIsTick` | log.c:199-200 | So is the write of the emptied header, in a commit and in recovery |
| `LogDevice.ReadTurnIsTick` | log.c:86-96 | So is reading the header, a panic when its count does not fit |
| `LogDevice.InstalledIs` | log.c:70-82 | install_trans puts into every listed block what the log holds for it and changes no other block |
| `LogDevice.InstalledKeepsLog` | log.c:70-82 | install_trans leaves header and log blocks alone |
| `LogDevice.CommitDiskIs` | log.c:193-202 | A commit puts the new data of every listed block in its home, leaves every other home block alone and the header empty |
| `LogDevice.BootRefined` | log.c:54-66 | A machine that starts from any disk with a good header refines the disk that recovery will make of it |
| `LogDevice.Log.Bread` | bio.c:104-116 | A process has the buffer, with the cached data or that of the disk; it fails if and only if the block is not cached and no buffer can be recycled; buffers in use stay, and it is a run of the machine |
| `LogDevice.Log.Bget` | bio.c:62-100 | Fails if and only if the block is not cached and no buffer can be recycled; otherwise at most one recyclable buffer has lost its block; it is a run of the machine |
| `LogDevice.Log.constructor` | log.c:54-65 | The machine after power-on |
| `LogDevice.Log.BeginOp` | log.c:126-141 | Sleeps if and only if a commit runs or the blocks listed and ten for each open operation and itself exceed LOGSIZE; otherwise one more operation is open; it is one step of the machine |
| `LogDevice.Log.Change` | log.c:206-213 | The data of a held block changes; it is one step of the machine |
| `LogDevice.Log.Release` | bio.c:130-151 | The lock is given back; it is one step of the machine |
| `LogDevice.Log.Bwrite` | bio.c:120-126 | Exactly that block changes on disk, and its buffer is clean and given back |
| `LogDevice.Log.CopyToLog` | log.c:183-188 | After the reads, one log block gets the cached data of its listed block |
| `LogDevice.Log.CopyToHome` | log.c:75-80 | After the reads, one listed block gets its log block |
| `LogDevice.Log.LogStep` | log.c:183-188 | A turn of write_log with its reads: fails if and only if there is no buffer for the log block; otherwise the new disk, home blocks in use untouched, and a run of the machine |
| `LogDevice.Log.HomeStep` | log.c:75-80 | A turn of install_trans with its reads never lacks a buffer, and is a run of the machine |
| `LogDevice.Log.WriteLog` | log.c:178-190 | Fails if and only if its first read finds no buffer; otherwise the blocks behind the header hold the cached data of the listed blocks in order and no home block in use changes in the cache; by a run of the machine |
| `LogDevice.Log.InstallTrans` | log.c:70-82 | The disk is the installed one of `InstalledIs`; by a run of the machine |
| `LogDevice.Log.WriteHead` | log.c:102-113 | After the read, the header block on disk lists the in-memory header; no other block changes |
| `LogDevice.Log.CommitHead` | log.c:197 | The header write at the commit point: the new disk, and a run of the machine |
| `LogDevice.Log.EraseHead` | log.c:199-200 | The emptied header: the new disk, and a run of the machine |
| `LogDevice.Log.LogAndHead` | log.c:196-197 | Log blocks and header: fails if and only if the first read finds no buffer; otherwise the new disk, and a run of the machine |
| `LogDevice.Log.InstallAndErase` | log.c:198-200 | Installing and emptying the header: the new disk, and a run of the machine |
| `LogDevice.Log.ReadHead` | log.c:86-96 | Succeeds exactly when the count of the header block fits, and then the in-memory header is what the block lists |
| `LogDevice.Log.Commit` | log.c:193-202 | Panics if and only if blocks are listed and its first read finds no buffer; otherwise the disk becomes the committed disk of `CommitDiskIs`, the in-memory header is empty, and the whole is a run of the machine |
| `LogDevice.Log.EndOp` | log.c:146-174 | Panics if and only if a commit runs, or it is the last operation, blocks are listed and the first read of the commit finds no buffer; the last operation commits, any other leaves disk, header and cache alone, sleepers are woken, and the whole is a run of the machine, to the panic too |
| `LogDevice.Log.CommitAndWake` | log.c:165-173 | The commit and the end of committing, with the same condition |
| `LogDevice.Log.RecoverFromLog` | log.c:116-122 | Every home block listed on disk gets its log block, every other one stays, the header on disk is empty, no buffer is in use, and the whole is a run of the machine; a header whose count does not fit is refused |
| `LogDevice.Log.LogWrite` | log.c:214-233 | Refused exactly when the header is full, the log is full or no operation is open; otherwise the block is listed once and pinned; lists of different home blocks stay such lists; it is one step of the machine |
| `LogDevice.Log.Transact` | log.c:126-233 | A whole operation on one block, from begin_op to the end of the commit: the block has the data on disk, every other home block is as before, the header lists nothing |
| `LogDevice.PowerOn` | log.c:54-233 | From power-on, recovery and such an operation: the block has the data, every other home block is what recovery makes of it |
| `VmState.FreedSound` | kalloc.c:75-114 | Giving back a frame the kernel holds keeps the bookkeeping |
| `VmState.UnmappedSound` | vm.c:293-299 | Emptying a present entry and taking one reference off its frame keeps the bookkeeping, for shared frames and unshared ones |
| `VmState.SharedSound` | vm.c:373-382 | Marking the parent, entering the child and counting the frame once more keeps the bookkeeping |
| `VmState.ReplacedSound` | vm.c:604-618 | Moving an entry from a shared frame to a frame of its own keeps the bookkeeping |
| `VmState.ParkedSound` | fs.c:912-937 | Entering a page into the map of swapped pages, with a slot nobody has, keeps the bookkeeping |
| `VmState.DroppedSound` | fs.c:1072-1084 | Taking a page out of the map of swapped pages, with its slot, keeps the bookkeeping |
| `VmState.OnlyOwner` | kalloc.c:175-189 | A frame counted once, with an entry that names it, is named by no other entry |
| `VmOps.CopiedRefined` | vm.c:604-618 | Copy-on-write of a shared page changes the contents of no page of any address space |
| `VmOps.UnsharedEntries` | vm.c:585-619 | Copy-on-write makes one entry writable and unshared and leaves all others |
| `VmOps.SwappedOutRefined` | fs.c:899-961 | Swapping a page out changes the contents of no page of any address space, when the device has taken page and node |
| `VmOps.SwappedInRefined` | fs.c:1009-1091 | Bringing a page back into any free frame changes the contents of no page, when the device has given up slot and node |
| `VmOps.OverwriteLeaks` | vm.c:577-579 | An overwritten shared entry leaves its frame with a count one above its owners |
| `VmOps.SwappedOnDevice` | fs.c:899-961 | In every sound state a swapped page is keyed by the frame its entry names, and the bytes of its slot in the swap file are its page, when the slot fits |
| `VmOps.OutBacked` | fs.c:903-937 | When a page and its node have gone out, bins, bits and slots are exactly those of the swapped pages, the new one included |
| `VmOps.DropBacked` | fs.c:1072-1084 | When slot and node are given up, they are exactly those of the others |
| `Vm.KAlloc` | kalloc.c:120-141 | Fails exactly when no frame is free, panics exactly when the first free frame is counted, and otherwise takes it with count 1 |
| `Vm.KFree` | kalloc.c:75-114 | Takes one reference; the last one puts the frame, filled with junk, on the free list |
| `Vm.WalkPgdir` | vm.c:55-75 | Finds an entry exactly when the page table is there or could be made, and makes at most that page table |
| `Vm.MapPage` | vm.c:78-88 | Panics exactly on a present page that is neither shared nor swapped; otherwise exactly that entry changes |
| `Vm.LazyAlloc` | vm.c:565-583 | An untouched page becomes present and nobody finds other contents; on failure no entry changes and fewer than two frames were free; a present page is a panic, or lost if it was shared |
| `Vm.CopyOnWrite` | vm.c:585-619 | Afterwards the page may be written and no contents differ; fails exactly when the frame is shared and none is free |
| `Vm.SwapWrite` | fs.c:899-961 | The page leaves for the lowest free slot of the file and its node enters the map; no contents differ, bins and file stay those of the swapped pages, unless all slots up to the first that does not fit are taken; then the page falls on the bitmap, and the file is right if and only if the page equals the bytes there |
| `Vm.SlotOut` | fs.c:903-907 | There is always a free slot, and the lowest one is taken; it lies behind the file exactly when all slots up to the first that does not fit are taken |
| `Vm.SwapRestore` | vm.c:539-563 | The page read from the swap file is back in a new frame with its old marks, its node and slot are gone, no contents differ; panics exactly without a free frame or with a slot that did not fit |
| `Vm.SlotIn` | fs.c:1083-1084 | The bytes read from the file are the page that went out, if the slot fits, and the slot is free |
| `Vm.SwapFree` | fs.c:1098-1170 | Node and slot of the page are gone from bins and file, its entry is empty, and no other page differs |
| `Vm.ClearPteu` | vm.c:342-349 | Panics exactly without a page table; otherwise the page is no longer accessible, swapped or not, and nothing else and no contents differ |
| `Vm.ResolvePresent` | vm.c:656-668 | What a fault at a page that is not swapped leads to: copy-on-write, a new page, or the guard page cases, with the exact condition for a guard page to lose its protection |
| `Vm.HandlePageFault` | vm.c:621-673 | Refused exactly outside the accepted range; otherwise no contents differ, an accessible page may now be accessed, a guard page becomes accessible exactly if `GuardLost`, and accounting fails in one case only, the read of a shared guard page, by exactly one |
| `Vm.DeallocPage` | vm.c:290-312 | The page is gone, whether present, shared or swapped, and no other page differs |
| `Vm.DeallocUvm` | vm.c:281-317 | Exactly the pages from the new size up to the old one are gone, also where whole page tables are skipped |
| `Vm.FreeVm` | vm.c:322-337 | All pages, slots and page tables of the directory are gone, and no other address space differs |
| `Vm.SharePage` | vm.c:368-382 | A present page is named by parent and child, both marked copy-on-write and not writable, and the child finds what the parent finds; fails only without a free frame |
| `Vm.CopyPage` | vm.c:362-386 | The same for any page, swapped ones included; panics exactly on a missing page table or a page that cannot be brought back |
| `Vm.CopyRange` | vm.c:362-386 | The first pages are copied, and a failure or panic has its reason in the parent or in the number of free frames |
| `Vm.CopyUvm` | vm.c:354-392 | The child finds in every page from PGSIZE what the parent finds, through one frame marked read-only in both, or there is no child and nobody notices; no other directory changes; with two free frames for each page and all page tables it succeeds, and it takes no more |
| `Vm.AllocUvm` | vm.c:247-274 | On untouched pages all up to the new size become present pages of zeroes or none does; it panics only at a page present already, and one is a panic unless frames run out first, when it is given back with the new ones; it fails only at KERNBASE or with fewer than two free frames for each page |
| `Vm.GiveBack` | vm.c:259-270 | After a failure the pages of the range are gone, and on pages untouched before nobody notices |
| `Vm.SwapPage` | vm.c:487-515 | A present, unshared page goes out if it was not accessed, and loses only that mark if it was; every other entry stays; no frame is lost |
| `Vm.SwapSpace` | vm.c:483-515 | The same for every page below the size of one process, and no other entry changes |
| `Vm.SwapAll` | vm.c:468-532 | The same for every page below the sizes of the listed processes, each once, and no other entry changes; no contents differ; it stops only when the slots may run out |
| `VmRuns.LoadByte` | vm.c:621-673 | A load at any address, with the faults it takes, finds the byte of the private page; it fails only outside the accepted range or when frames are scarce |
| `VmRuns.StoreByte` | vm.c:585-673 | A store at any address, with the faults it takes, changes that byte of that page of that process and nothing else |
| `VmRuns.Touch` | vm.c:621-673 | After the faults the page permits the access and is marked accessed; fails only outside the accepted range or when frames are scarce |
| `VmRuns.CopyCellsAt` | vm.c:354-392 | What fork is measured by: every page from PGSIZE of the child is the page of the parent, and nothing else differs |
| `VmRuns.ShowsForked` | vm.c:354-392 | Sharing frames in the machine corresponds to copying every page eagerly |
| `VmMachine.FreeRange` | kalloc.c:62-67 | All frames are free with count 0, and the state shows empty private memory |
| `VmMachine.InitUvm` | vm.c:210-219 | The first page of the directory holds the code, and every other page is zero |
| `VmMachine.Machine.constructor` | proc.c:128-161 | The machine starts with one process of one page, in correspondence with private memory, with an empty swap map and a bitmap of clear bits |
| `VmMachine.Machine.Read` | vm.c:621-673 | Returns the byte of private memory and marks the page as accessed, taking two frames at most and changing no other entry, or fails outside the accepted range or when frames are scarce, or stops at a guard page or a page that cannot be brought back |
| `VmMachine.Machine.Write` | vm.c:585-673 | Is the store on private memory, with the same exceptions |
| `VmMachine.Machine.Fork` | proc.c:188-236 | Is the eager copy on private memory, into the first free entry; fails only with a full table, too few frames or a page without page table or beyond recall, and panics only for such a page or for a swapped one with too few frames; no third process has an entry changed |
| `VmMachine.Machine.Sbrk` | sysproc.c:49-63 | Moves the end, also beyond KERNBASE, or cuts off the pages behind the new end; down to nothing it wipes all pages and fails |
| `VmMachine.Machine.Shrink` | proc.c:175-178 | The pages behind the new end are cut out of private memory, no frame is lost and no other process has an entry changed; it fails exactly for the new size 0, with the size unchanged |
| `VmMachine.Machine.Swap` | vm.c:468-532 | No process can tell; of the pages below the size of a process, those present and unshared go out unless they were accessed, and then lose that mark; no other entry changes; stops only when the slots may run out |
| `VmMachine.Machine.SwapTwice` | vm.c:468-532 | Two passes with nothing between leave no page below the size of a process present unless it is shared |
| `VmMachine.TwoPasses` | vm.c:487-515 | Any two passes in succession leave of an address space only the shared pages, and sharing as it was |
| `VmMachine.Machine.Exit` | proc.c:303-315 | The private memory of the process is gone, and no other differs |
| `VmMachine.Machine.Step` | vm.c:354-673 | Each operation does on private memory what its event says and to table, entries and frames what is stated of it, leaves private memory alone only for a stated reason, and stops only for a stated reason, with nothing changed |
| `VmMachine.MustAct` | vm.c:621-673 | The exact condition for an operation to have no such reason: a live process, a page of the user half above the first that begins at or below the size, two frames, a page that is not stuck; for fork a free entry, frames and pages that can be copied; for sbrk an end not below 0 |
| `VmMachine.RunOn` | vm.c:354-673 | A run and one more operation from its last state are a run |
| `VmMachine.Machine.Run` | vm.c:354-673 | Private-memory refinement: in every run of loads, stores, forks, sbrks, swaps and exits, at every address, every byte read is the byte that eager copying and zeroed pages would have given, and bins, bitmap and slots stay those of the swapped pages. The run is given back as the states from the first to the last, each following from the one before by its operation, and an operation with no effect has its reason in the state it found |
| `VmMachine.RunReplays` | vm.c:354-673 | Along any such states the events are those the operations ask for, and replaying them leads from the first private memory to the last |
| `VmHistory.SecondChance` | vm.c:468-532 | In every run, two passes of swap between which a process does nothing leave none of its pages below the size present, but for shared ones, whatever the other processes do |
| `VmHistory.FirstChance` | vm.c:487-515 | In every run, a page that was loaded from or stored to is still present after the next pass |
| `VmHistory.EntryKept` | vm.c:354-673 | In every run, the entries of a process change only by its own operations and by swap |
| `VmHistory.FramesLast` | vm.c:354-673 | In every run, the frames left are at least those at the start less two for each load or store, and two for each page and one for each fork |
| `VmHistory.AccessGoesThrough` | vm.c:621-673 | In every run, while that bound leaves two frames, every load and store at a page that is accepted and not stuck is carried out |
| `VmRuns.EndPageExposed` | vm.c:636 | After a store of `v` at the page that begins at the end and growth over it, a load finds `v`, where memory as it is meant has 0: the two agree if and only if `v` is 0 |
| `VmRuns.CleanIff` | vm.c:636 | Beyond the ends there are only zeroes after a step if and only if it does not store something else there |
| `VmRuns.CleanRunIff` | vm.c:636 | The same for every state of a whole run |
| `VmRuns.MeantRun` | vm.c:636 | A run that stores only zeroes beyond the ends is a run on memory in which every page a process grows over is zero |
| `VmMachine.StoreBeyond` | vm.c:636 | From boot on, a process stores at the page at its end, grows over it and loads what it stored |
| `VmMachine.ForkTo` | proc.c:188-236 | fork on memory and table: the child shows the eager copy and shares its frames; what fails or panics has a stated reason |
| `VmGuard.GuardLeaks` | vm.c:577-579 | A run from boot: a guard page made as in exec, shared as in fork and read is accessible, and its frame is counted once more than it is named |
| `VmGuard.MakeGuard` | vm.c:342-349 | A page that is present and not accessible, in sound memory |
| `VmGuard.ShareGuard` | vm.c:362-386 | That page shared with another address space, still in sound memory |
| `VmTheorems.FrameAccounting` | kalloc.c:75-141 | A frame is on the free list exactly once if its count is 0 and not at all otherwise; a count above 0 is the number of entries that name the frame, or 1 for a frame only the kernel holds |
| `VmTheorems.UnmarkedIsAlone` | fs.c:931-951 | A present entry without the copy-on-write mark is the only one on its frame, whose count is 1: the other branch of swapwrite_file is not reached |
| `VmTheorems.SwapBijection` | fs.c:899-961 | Entries marked swapped, map nodes, slots and set bits correspond one to one, and the node is keyed by the frame the entry still names |
| `VmTheorems.DeviceBijection` | fs.c:899-961 | On the device: marked entries, nodes in the bins and set bits of the swap file correspond one to one, each node keyed by the frame its entry still names |
| `VmTheorems.RestoreBringsBack` | fs.c:1009-1091 | Swapping out to a slot that fits and bringing back gives the page again |
| `SwapMap.Hash` | unordered_map.c:47-51 | The bin index is in range for every key, 32-bit wrap of the difference included |
| `SwapMap.Insert` | fs.c:912-937 | The bins represent the map with the new page, also when its key is already there |
| `SwapMap.Find` | fs.c:1024-1045 | The first node of the key that lists the entry, or the end of the bin if there is none |
| `SwapMap.Remove` | fs.c:1013-1076 | Finds a node if and only if the page is swapped under that frame, returns its slot and removes this node only |
| `SwapMap.Free` | fs.c:1109-1158 | The same by way of the list of entries of the node, which is removed with its last entry |
| `LinkedList.List.Add` | LinkedList.c:59-74 | The list is the old one with a new node at the end; all links in both directions, start, end and length agree with it |
| `LinkedList.List.GetNextMatching` | LinkedList.c:78-87 | The first node from the given one on whose key matches, a missing key matching all, or none |
| `LinkedList.List.RemoveNextMatching` | LinkedList.c:92-114 | That node is gone, all others keep their order and data, and the node behind it is returned |
| `LinkedList.List.Unlink` | LinkedList.c:96-109 | Both ends, the length and the neighbours of the node agree with the list without it |
| `SwapFile.WithBitIs` | fs.c:699-701 | The bit operations change exactly the bit asked for |
| `SwapFile.FileSeek` | file.c:153-196 | For each whence: fails exactly outside the file, and then the offset stays; SEEK_END moves on from the end; any other whence fails |
| `SwapFile.FileRead` | file.c:93-108 | Returns the bytes from the offset, as far as there are any, and moves the offset by them |
| `SwapFile.FileWrite` | file.c:113-150 | Overwrites from the offset with exactly the chunks the largest file has room for |
| `SwapFile.FileTruncate` | file.c:198-224 | Writes as many zeroes as the new length from the current offset on; refuses to shrink; fails exactly when they do not fit |
| `SwapFile.BitmapSet` | fs.c:680-722 | One bit is as asked, every other bit and every slot is unchanged |
| `SwapFile.GetFreePage` | fs.c:724-754 | The lowest clear bit, although the bitmap is read in chunks; it is set and no other bit or slot changes; none exactly when all are set |
| `SwapFile.WritePage` | fs.c:757-766 | If the slot begins in the file it holds the page when it fits, and no bit and no other slot changes; otherwise the file is the one with the page, as far as there is room, pasted where it stood |
| `SwapFile.LostIff` | fs.c:757-766 | When the slots before it do not fit, the file with the page pasted represents the map if and only if the page equals the bytes it falls on |
| `SwapFile.ReadPage` | fs.c:767-779 | Returns the slot; a file too short for it is first filled from the current offset, and the call panics exactly when that does not fit |
| `SwapFile.FreePage` | fs.c:781-786 | If the slot begins in the file its bit is clear and no other bit and no other slot changes; otherwise the zeroes are pasted over the bitmap |
| `SwapFile.Init` | fs.c:838-851 | The new file is a bitmap of clear bits |
| `SwapFile.SeekInFile` | fs.c:724-766 | Because all lower slots are taken and were written, the seek to the lowest free slot lies within the file |
| `SwapFile.Out` | fs.c:903-907 | The lowest free slot gets the page and the file represents the map with it, as long as the slots before fit; otherwise the page is pasted over the bitmap and the file represents the map if and only if the page equals the bytes there; none exactly when all bits are set |
| `SwapFile.FillUp` | fs.c:903-907 | From a new file, page after page comes to the slot behind the file for every bitmap of 3 to 7168 bytes; the file is then right if and only if the last page is what was there |
| `SwapFile.FallenIs` | fs.c:757-766 | What was there: the rest of the bitmap, clear, and the beginning of slot 0 |
| `SwapFile.Drop` | fs.c:1158 | The file represents the map without the page; for a slot behind the file the zeroes are pasted over the bitmap |
| `SwapFile.In` | fs.c:1083-1084 | For a slot that fits, the page that went out comes back and the file represents the map without it; otherwise the call panics |
| `KernelHeap.Heap.FindPlace` | kalloc.c:272-274 | The search ends, and at the free block after which the block belongs by address, wrap included |
| `KernelHeap.Heap.KMallocFree` | kalloc.c:268-286 | The heap stays sound, exactly this block is no longer live, and a free block has room for its units |
| `KernelHeap.Heap.MoreCore` | kalloc.c:289-305 | Succeeds exactly when the wrapped product is below a page and a frame is left; one page is added, live blocks stay, and a free block of a page is there even if it merged |
| `KernelHeap.Heap.Take` | kalloc.c:318-328 | A live block of exactly the units asked for, new to the live blocks, from a whole block or its tail |
| `KernelHeap.Heap.Search` | kalloc.c:317-332 | Goes once round the ring and calls morecore at most once below a page, finding room afterwards |
| `KernelHeap.Heap.KMalloc` | kalloc.c:308-333 | Outside the wrapping sizes it fails if and only if no free block fits and the request reaches a page or no frame is left; otherwise one new live block, at most one new page, all other live blocks as they were |
| `KernelHeap.Heap.constructor` | kalloc.c:308-316 | The heap before the first kmalloc |
| `KernelHeap.Run` | kalloc.c:268-333 | Any sequence of kmalloc and kmallocfree from boot: no block is handed out that is live, each has the units asked for, the live blocks are those not given back, and the heap stays sound |
| `KernelHeap.FreedSound` | kalloc.c:275-284 | Merging with the upper block, the lower block, both or none keeps order, separation and the sum of units |
| `KernelHeap.UnlinkedSound` | kalloc.c:319-320 | Taking a whole block out of the ring keeps the heap sound |
| `KernelHeap.CutTailSound` | kalloc.c:321-325 | Cutting a block off the tail of a free block keeps the heap sound |
| `KernelHeap.LiveApart` | kalloc.c:268-333 | In a sound heap live blocks overlap neither each other nor a free block |
| `KernelHeap.FreeNotAdjacent` | kalloc.c:275-284 | No two free blocks touch |
| `KernelHeap.Conserved` | kalloc.c:289-305 | Free and live units together are 512 for each page obtained |
| `KernelHeap.GuardWraps` | kalloc.c:293 | The guard of morecore is the intended one except on eight sizes, on which it always passes |
| `KernelHeap.PayloadSuffices` | kalloc.c:312 | The block has room for the request if and only if the rounding does not wrap |
| `ProcTable.Scans.Wakeup1` | proc.c:484-491 | Exactly the sleepers on the channel become runnable |
| `ProcTable.Scans.PassToInit` | proc.c:272-278 | Exactly the children of the process get init as parent, and init is awake if one of them is a zombie |
| `ProcTable.Scans.Kill` | proc.c:507-524 | The first entry with the pid is marked and woken, and the result tells whether there is one |
| `ProcTable.Scans.FindZombie` | proc.c:298-317 | The first zombie child, and whether there are children at all |
| `ProcTable.Scans.FindUnused` | proc.c:88-90 | The first unused entry, or none if there is none |
| `ProcTable.Scans.Wait` | proc.c:296-327 | Frees the first zombie child and returns its pid; without one returns -1 if there is no child or the caller is killed, and otherwise the caller sleeps on itself; it is the step of the table |
| `ProcTable.Scans.Exit` | proc.c:266-282 | Wakes the parent, gives the children to init and wakes it if one is a zombie, and leaves the process a zombie; it is the step of the table |
| `ProcTable.ExitKeeps` | proc.c:266-282 | Exit keeps the invariant: who runs where, no waiter with a zombie child, live parents, pids returned once |
| `ProcTable.WaitKeeps` | proc.c:296-327 | A round of wait keeps the invariant of `ExitKeeps`; `WaitIs` says which branch it takes |
| `ProcTable.KillKeeps` | proc.c:507-524 | Kill keeps it |
| `ProcTable.MarkedUnusedIff` | proc.c:507-524 | An unused entry is marked killed after a step if and only if it was and was not allocated, or kill found no earlier entry with its pid, or a killed process gave it back half made |
| `ProcTable.BornKilledIff` | proc.c:88-104 | A process is born killed if and only if its entry was marked while unused |
| `ProcTable.KillZero` | proc.c:507-524 | After boot, kill(0) and the next allocproc make a process that is born killed |
| `ProcTable.StepKeeps` | proc.c:86-524 | Every step of allocproc, fork, scheduler, yield, sleep, wakeup, kill, exit and wait keeps it |
| `ProcTable.RunKeeps` | proc.c:86-524 | So does every run |
| `ProcTable.NoWaiterHasZombie` | proc.c:242-328 | After any run from boot no process asleep in wait has a zombie child, reparenting to init included |
| `ProcTable.RunningOnOneCpu` | proc.c:339-408 | After any run from boot a process is RUNNING if and only if exactly one processor names it |
| `ProcTable.ReapedOnce` | proc.c:289-328 | After any run from boot wait has returned each pid at most once and only for a process that exited; one that exited and was not returned is a zombie whose parent has not exited |
| `ProcTable.WaitReapsIff` | proc.c:296-327 | A round of wait returns a pid if and only if the caller has a zombie child |
| `ProcSteps.EnabledIff` | proc.c:86-524 | When each step is possible, over the entries and processors; the exit of init is the only panic |
| `ProcSteps.WaitIs` | proc.c:296-327 | A round of wait frees the first zombie child and returns its pid; without one it returns with nothing changed if and only if no entry has the caller as parent or the caller is killed, and otherwise the caller sleeps on itself |
| `ProcSteps.WaitGivesUpIff` | proc.c:320-327 | The caller goes on with nothing changed if and only if it has no zombie child and has no children or is killed; it sleeps if and only if it has children, none a zombie, and is not killed |
| `ProcSteps.ExitEntry` | proc.c:266-282 | What exit makes of every entry: the process a zombie, its children those of init, its parent awake, and init if it got a zombie |
| `ProcSteps.KillEntry` | proc.c:507-524 | What kill makes of every entry: the first with the pid is marked, and runnable if it slept |
| `ProcSteps.WokenIff` | proc.c:439-524 | A sleeping process is woken by exactly these: wakeup on its channel, kill of its pid, and in wait the exit of a child, or for init of a process with a zombie child |
| `ProcSteps.AsleepIff` | proc.c:289-478 | A process falls asleep by exactly these: sleep, and a round of wait with children, none a zombie, and no kill |
| `ProcSteps.RunsIff` | proc.c:242-408 | A process gets a processor exactly when a scheduler picks it, loses it only by its own yield, sleep, wait or exit, and becomes a zombie exactly by its own exit |
| `ProcSteps.UsedIff` | proc.c:86-328 | An entry is taken exactly by allocproc with the next pid, runnable exactly by fork, and free again only when wait returns its pid or fork gives it back |
| `ProcSteps.KeepsIdentity` | proc.c:86-524 | Parent, pid and the mark of kill of an entry change in no step but fork, allocproc, kill, the exit of the parent and the wait that frees it |
| `SleepWakeup.StepKeeps` | proc.c:439-501 | Every step of sleep, wakeup, kill and the users of the lock keeps: who has found the condition false and has not slept off a wakeup is owed one if the condition holds |
| `SleepWakeup.NoLostWakeup` | proc.c:439-501 | For any number of processes and after any run, a process asleep while the condition holds is owed a wakeup by some process |
| `SleepWakeup.OwedIsNext` | proc.c:495-501 | Once the lock is free, whoever owes a wakeup has only the wakeup itself before it |
| `SleepWakeup.NoDeadlock` | proc.c:439-501 | After any run, a process inside a call and not asleep can go on, or the holder of one of the two locks can |
| `SleepWakeup.OneHolder` | sleeplock.c:23-42 | In every run a process has taken the sleep lock once more than it gave it back exactly when the lock names it, so at most one process holds it |
| `SleepWakeup.NoSleeperOnFreeLock` | sleeplock.c:23-42 | After any run, with the lock free and no wakeup owed nobody sleeps on it |
| `PipeFifo.Fill` | pipe.c:84-94 | The loop, as far as it gets without sleeping, is the filled pipe of `FilledFifo` |
| `PipeFifo.Drain` | pipe.c:113-117 | The loop is the drained pipe of `DrainedFifo` |
| `PipeFifo.FilledFifo` | pipe.c:84-94 | What goes in is appended to the bytes put in, and the ring holds the bytes not yet taken |
| `PipeFifo.DrainedFifo` | pipe.c:113-117 | What comes out continues the bytes taken, in the order they were put in |
| `PipeFifo.CountsTell` | pipe.c:85-106 | The wrapped 32-bit counters tell exactly the full and the empty pipe |
| `PipeFifo.StepKeeps` | pipe.c:60-121 | Every section of a reader or writer, every kill and every close keeps the pipe and its sleepers in order |
| `PipeFifo.EnabledIff` | pipe.c:60-121 | When each step is possible: a call while its end is open, going on once woken, a kill at any time, closing an end nobody is inside a call on |
| `PipeFifo.WriteSection` | pipe.c:79-98 | A section of a write puts in the next bytes of its buffer, as many as there is room for; returns their whole number with the last one, -1 for a closed end or a killed process, and otherwise sleeps at its position; the sleeping readers wake unless it returns -1; nothing else changes |
| `PipeFifo.ReadSection` | pipe.c:101-121 | A section of a read with no byte in the pipe and the write end open returns -1 for a killed process and sleeps otherwise; with bytes it returns the next ones, the smaller of the number asked for and the number there are, and the sleeping writers wake; nothing else changes |
| `PipeFifo.OtherSection` | pipe.c:60-76 | Kill and close move no byte and end no call, and wake exactly the process killed and those asleep at the other end |
| `PipeFifo.FirstInFirstOut` | pipe.c:79-121 | In every interleaving of readers and writers the bytes out are a prefix of the bytes in, and the difference of the counters modulo 2^32 is the number between, at most 512; whose bytes they are is in `WritesItsBuffer` |
| `PipeFifo.WritesItsBuffer` | pipe.c:79-98 | In every run, a write call that has not ended has put in exactly the bytes of its buffer before its position, each once and in order; one that returned n all of them; one that returned -1 a proper prefix |
| `PipeFifo.ReaderSleepsOnEmpty` | pipe.c:101-121 | After any run a sleeping reader has the write end open, and an empty pipe if no step stranded a reader |
| `PipeFifo.StrandedIff` | pipe.c:79-98 | A step leaves a reader that slept before an empty pipe asleep before bytes if and only if it is a section of a killed writer with more than 512 bytes left |
| `PipeFifo.CalmIff` | pipe.c:79-121 | Every sleeping reader still has an empty pipe after a step if and only if it is not such a section with a reader asleep |
| `PipeFifo.CalmRunIff` | pipe.c:79-121 | The same for every state of a whole run |
| `PipeFifo.WriterSleepsOnFull` | pipe.c:79-98 | A sleeping writer has a full pipe with its read end open |
| `PipeFifo.KilledWriterStrandsReader` | pipe.c:86-89 | A killed writer with more than 512 bytes leaves a reader asleep before a full pipe |
| `Inodes.Balloc` | fs.c:70-90 | The lowest free block, zeroed and marked, or none exactly when the disk is full |
| `Inodes.Bmap` | fs.c:375-404 | The number of the block; what is missing is allocated, what is there is not touched, no file changes, and it fails only beyond MAXFILE or on a full disk |
| `Inodes.ReadI` | fs.c:455-477 | Returns exactly the bytes of the file asked for, or the error of the range test, and allocates nothing |
| `Inodes.WriteTurn` | fs.c:498-504 | One more piece of the source is in place and no other byte of any file changes |
| `Inodes.WriteI` | fs.c:483-511 | Refused exactly by the range tests; otherwise the file is overwritten from the offset, longer if need be, and no other file changes; stops only on a full disk |
| `Inodes.Bfree` | fs.c:94-106 | Frees the block; a panic exactly when it is free |
| `Inodes.ITrunc` | fs.c:412-438 | Never frees a free block, and leaves the state of `TruncatedSound` |
| `Inodes.TruncatedSound` | fs.c:412-438 | The file is empty, other files are as before, and exactly the blocks the inode owned, the indirect block included, become free |
| `Inodes.LinkedSound` | fs.c:378-400 | A new block in an empty place has one owner, and no other place changes |
| `Inodes.StoredBytes` | fs.c:500-503 | A store into a block of a file is seen in those bytes of that file only |
| `Inodes.StoredPtr` | fs.c:500-503 | A store into a block of data changes no block number, direct or in an indirect block |
| `Inodes.WithWordIs` | fs.c:390-396 | Writing four bytes into an indirect block changes this block number and no other |
| `Inodes.ImageSound` | fs.c:70-106 | A new image, with empty inodes and only the metadata blocks in use, meets the invariant |
| `Inodes.Call` | fs.c:412-511 | One readi, writei or itrunc is its effect on files that are byte sequences, and returns what they would return |
| `Inodes.Calls` | fs.c:412-511 | So is any sequence of calls on any inodes; it ends early only at a write on a full disk |
| `BufferCache.RingInverse` | bio.c:39-56 | The two directions of the ring are inverse to each other |
| `BufferCache.Unlinked` | bio.c:142-143 | Two assignments take a buffer out of the ring in both directions |
| `BufferCache.Pushed` | bio.c:144-147 | Four assignments put it at the front |
| `BufferCache.Cache.constructor` | bio.c:39-56 | All NBUF buffers are in the ring once in both directions, with the initial identity |
| `BufferCache.Cache.Find` | bio.c:72-81 | The buffer of the block, or none if no buffer has it |
| `BufferCache.Cache.Victim` | bio.c:87-98 | Of the clean unreferenced buffers the one released to zero longest ago, or none if there is none |
| `BufferCache.Cache.BGet` | bio.c:62-100 | Panics exactly when the block is not cached and every buffer is in use; otherwise one more reference or the victim with a new identity; no other buffer changes and no two have one identity but the initial one |
| `BufferCache.Cache.Pin` | log.c:231 | The buffer is dirty and can no longer be recycled; nothing else changes |
| `BufferCache.Cache.Iderw` | memide.c:38-60 | Panics exactly without the lock, when the buffer is valid and clean, or off the disk; a dirty one is written, and it is valid and clean afterwards |
| `BufferCache.Cache.BRead` | bio.c:104-116 | A valid buffer of the block; a panic exactly when there is no room, or when the block is off the disk and not valid in the cache; no buffer in use changes |
| `BufferCache.Cache.BWrite` | bio.c:120-126 | Panics exactly without the lock or off the disk; otherwise the buffer is written, valid and clean, and nothing else changes |
| `BufferCache.Cache.BRelse` | bio.c:138-148 | One reference less; the last one moves the buffer to the front, and the order of the others stays |
| `Grep.MatchHere` | grep.c:85-96 | True if and only if the text from this position can be cut into pieces, one for each atom of the pattern |
| `Grep.MatchStar` | grep.c:99-106 | The same for a starred character before the pattern |
| `Grep.Match` | grep.c:73-82 | True if and only if the pattern holds at some position, at 0 if it begins with ^, for all patterns and texts |
| `ShellParser.GetToken` | sh.c:281-323 | The kind, the extent and the end of the token after white space |
| `ShellParser.OneRedir` | sh.c:395-410 | Reads a redirection if and only if one is there |
| `ShellParser.ParseRedirs` | sh.c:390-412 | Reads all redirections that follow, or panics at one without a name |
| `ShellParser.ParseSimple` | sh.c:431-461 | The one simple command that derives from the line here, or a panic if there is none with fewer than MAXARGS words |
| `ShellParser.ParseBlock` | sh.c:415-428 | The one block with its redirections, or a panic if there is none |
| `ShellParser.ParseExec` | sh.c:431-461 | The one unit of a pipe, or a panic if there is none |
| `ShellParser.ParsePipe` | sh.c:377-387 | The one pipe that ends where a pipe may end, or a panic if there is none |
| `ShellParser.ParseLine` | sh.c:360-374 | The one line that ends where a line may end, or a panic if there is none |
| `ShellParser.NulTerminate` | sh.c:465-508 | The buffer has a NUL at the end of every word of the command and is the old one elsewhere |
| `ShellParser.WordsSurvive` | sh.c:465-508 | After that every word, read as a C string, is exactly the token scanned: none is overwritten by the terminator of another |
| `ShellParser.ParseCmd` | sh.c:343-357 | Ends on every line; succeeds if and only if the whole line derives a command with fewer than MAXARGS words each, with the only such command, and leaves every argument and file name as its token |

## Left out

- SwapPage: stops after a page has fallen on the bitmap (`SwapWrite` says what the file is then); what later operations make of it is not followed.
- HandlePageFault: is one step; the races between reading and lowering a count (vm.c:589, vm.c:617) are not modelled.
- KAlloc: and all of `Vm` take and return a record of the memory state where the C code updates globals in place; page tables are a map from directory and page, without the kernel half of a directory.
- Machine.Step: stops at a touch of a guard page (`HandlePageFault` says what becomes of it), and at fork, swap and shrinking of a process larger than KERNBASE.
- Machine.Run: the same; and sizes do not wrap at 2^32.
- SwapAll: and `SwapSpace`, `Machine.Swap` leave out two stops of the code: kmalloc for the node may return 0, which LinkedList.c:18-19 writes to, and balloc panics on a full disk while the swap file grows (fs.c:89).
- FileWrite: does not model the blocks of the disk, hence not the panic of balloc; `Inodes` has them.
- Machine.Fork: leaves out kernel stacks, open files and the current directory.
- Machine.constructor: takes a bitmap of 3 to 7168 bytes; that of the kernel has one bit for each page between its end and PHYSTOP (fs.c:847), fewer than 7168 bytes.
- AllocUvm: requires that no page of the range is swapped or shared, which its callers never meet; the order of the two frees after a failure is not kept.
- SwapMap.Insert: and `Remove` and `Free` take a bin as a sequence of nodes, without the allocation of a node; `LinkedList` shows that the lists in memory are such sequences.
- BGet: without the sleep lock of the buffer, which `SleepWakeup` has.
- ReadHead: does not follow a count that runs past the array of the header, where the C code goes on.
- RecoverFromLog: requires that the blocks listed on disk are home blocks; the C code does not look.
- ProcTable.StepKeeps: pids do not wrap at 2^32, and fork sets the parent in the step that makes the child runnable.
- ReadI: device inodes are not modelled.
- Log.EndOp: the class `Log` is one process at a time; waiting for a lock is only in `LogMachine`.
- exec and loading of programs: argument handling over the same page table operations.
- The walk over the entries of a shared frame (vm.c:691-754): `UnmarkedIsAlone` shows that it is not reached.
- The `la` field of a frame's data, which only that walk reads, and TLB flushes.
- The lock of the process table that swapfree_file lets go and takes again.
- SwapMapAdd, SwapMapRemove and the swap path over raw blocks (fs.c:966-1001): not used by the kernel.
- Reference counts of open files, directories, path names, link counts, system call dispatch, traps and device drivers.
- umalloc.c: the free list of `KernelHeap` again; the buffering of grep; running the parsed commands.
