# xv6-riscv with copy-on-write fork: a verified model

A Dafny 4.11 model of the hard parts of this kernel and of two of its user programs, with
proofs about every run of them. `dafny verify dfyconfig.toml` checks the whole project.

| part | files |
|---|---|
| Shared definitions | `Prelude`, `Words` |
| Copy-on-write virtual memory | `Sv39`, `Kalloc`, `PageTable`, `Supply`, `Cow`, `PageWalk`, `Freewalk`, `Vm`, `VmCopy`, `UserMem`, `TreeLife`, `ProcTree`, `Fork`, `Processes` |
| Redo log and buffer cache | `LogDisk`, `LogOps`, `Log`, `LogHead`, `Bio` |
| Inodes, blocks and the initial image | `FsState`, `Fs` (module `FsCode`), `Dinode` (module `DiskInode`), `MkfsState`, `Mkfs`, `MkfsRead` |
| Concurrency protocols | `Sleep`, `SleepCalls`, `Family`, `FamilyCalls`, `Virtio` |
| User programs | `Umalloc`, `Shell`, `ShellGrammar`, `ShellCode` |

## How the model reads

* **Memory.** Addresses count pages. Physical memory is one record: the contents of every
  page, its count in `page_refcnt`, the free list, and a ghost role per page (free, table of
  which tree at which level, user page, trapframe). A page is used either for bytes or as 512
  page-table entries, so both views are stored and `memset` writes both. The flag bits of an
  entry are a record; `Sv39` proves that record equal to what the C macros do to 64-bit words.
  Each kernel operation is one atomic step.
* **Sharing against copying.** `Processes.EagerStep` is a machine without sharing, in which
  fork copies every page (what the commented-out code of `kernel/vm.c:344-355` did).
  `Processes.Run` proves that the shared machine gives the same replies and the same views.
  Every reply is determined by the views and the memory there is: fork fails exactly with
  a full process table or fewer free pages than the child's trapframe and page tables need,
  sbrk exactly with too few pages for the new memory and the page tables it lacks, and a copyout
  stops early only at a page the process may not write or when no page is free.
* **Two places where the store-fault code goes on after an error.** `kernel/trap.c:85-99` does
  not leave when `walk` finds no entry or `kalloc` fails. `UserMem.StorePanics` is that condition:
  the page is not writable for the hardware and has no page-table page, or is copy-on-write while
  the free list is empty. A store panics exactly then, and a run ends early only there or at an
  operation of a process that does not exist. `Processes.StoreCrashes` shows that every process
  always has such an address, because no tree can have all its page-table pages.
* **Disk.** A crash stops a list of block writes after any prefix, and the write it hits may be
  torn, except the header write. `LogDisk` proves atomicity over whole runs of commits,
  crashes and crashed recoveries; `Log` proves that the code writes those lists, and joins them
  with the operations of `LogOps`: after any crash an operation is there wholly or not at all.
* **Buffers.** `Bio` runs the log's list `lh` and its loops on the cache. The invariant says that
  the pinned buffers are exactly those of the listed blocks that are not installed yet, each
  pinned once, and a pinned buffer keeps its block until it is installed. Commit writes through
  the cache exactly the list of writes of the crash proofs.
* **Log size.** `mkfs` gives the log 30 blocks (`mkfs/mkfs.c:25`), but the guard in `log_write`
  also refuses at `log.size - 1`. So the reservation promise is false for that image:
  `LogOps.ReservationFails` is a run of three operations within budget whose 30th new block is
  refused. `LogOps.ReservationExactly` gives the condition on the layout: the promise holds in
  every run exactly when the log has more than 30 blocks. But then a full transaction pins all 30
  buffers: `Bio.Bcache.Commit` succeeds without other users exactly with fewer than 30 blocks, and
  `Bio.FullCommit` is a run that ends in "bget: no buffers". So no size of the log is right.
* **File system.** Inodes hold block numbers; a ghost map names the one owner of each used
  block. Contents are a byte sequence. `logged` is what was given to `log_write` since
  `begin_op`: `AllLogged` says that every block whose bytes or block numbers changed is in it, the
  bitmap block of every bit that changed, and the inode block of every inode that changed.
* **mkfs.** `Mkfs` works on the bytes of the sectors. It computes an inode's block without a
  bound, so inode 208 lies in the bitmap block and inode 224 in a data block. An image is what mkfs
  promises exactly if it has at most 206 files: `Mkfs.Image.Build` proves both directions, for
  every number of files, and `Mkfs.BuildLost` builds the image with 207 files, whose inode 208
  holds bits of the bitmap. The root directory's size is always rounded up past the next block
  boundary, so when the entries end on a boundary the last block is missing;
  `MkfsState.Finished` carries the exact condition, and `Mkfs.BuildUnmapped` builds the smallest
  such image, 62 empty files. `MkfsRead` reads a finished image back from its sectors, field by
  field at the offsets of `struct dinode`.
* **Protocols.** `Sleep`, `Family` and the runs of `Virtio` are step relations: one step is
  one statement of one process, of the scheduler or of the device, in any order. The device may
  also move between the write of an avail entry and the write of the index. `SleepCalls` and
  `FamilyCalls` add the statements up to whole calls, for a caller that runs through.
* **Allocator and shell.** The allocator's ring of headers lives in a memory map and is
  followed pointer by pointer. The parser is a set of functions of the line and a cursor;
  `ShellCode` has the routines with their loops and proves each equal to its function.
  `ShellGrammar` is a grammar over tokens with a meaning for each tree: the parser accepts exactly
  the lines of the grammar, whatever their spacing, and builds the meaning. So `a & b` is refused:
  after "&" `parseline` takes only another "&" or ";" (`ShellGrammar.NothingAfterAmpersand`).

## Model

| member | source | states |
|---|---|---|
| Sv39.PackUnpack | kernel/riscv.h:349-353 | PTE2PA and PTE_FLAGS give back the page address and flags packed by PA2PTE |
| Sv39.ShareBitwise | kernel/vm.c:358-359 | sharing a page word: write bit gone, COW bit set exactly if it was writable or COW, address and other flags unchanged |
| Sv39.ShareDecode | kernel/vm.c:358-359 | the record operation used by the model equals the bit operations on every 64-bit word |
| Sv39.BreakBitwise | kernel/vm.c:418-421 | a broken entry is writable, not COW, keeps its other flags and names the new page |
| Sv39.BreakDecode | kernel/trap.c:102-105 | the same for the record operation, on every word and page address |
| Sv39.PxInjective | kernel/riscv.h:355-358 | the three table indices determine the page number below MAXVA |
| Sv39.PxBitsInjective | kernel/riscv.h:355-358 | the same for the shift-and-mask form on 64-bit addresses |
| Kalloc.Machine.Freerange | kernel/kalloc.c:37-43 | every managed page ends up on the free list, once, with count zero |
| Kalloc.Machine.Kfree | kernel/kalloc.c:49-73 | one reference less; the page is filled with junk and listed free only when that was the last one |
| Kalloc.Machine.Kalloc | kernel/kalloc.c:79-92 | the first free page with count one, or 0 when there is none (which still writes the count of page 0) |
| Kalloc.FreedKeeps | kernel/kalloc.c:49-73 | freeing keeps "the free list holds exactly the uncounted pages, each once" |
| Kalloc.TakenKeeps | kernel/kalloc.c:79-92 | allocating keeps it too |
| PageTable.PathRoles | kernel/vm.c:84-105 | the tables on the path to a page are the ones whose role says so, so no table is shared between trees |
| PageTable.StoreLeaf | kernel/vm.c:84-105 | writing one leaf entry changes that one page's mapping and no other mapping of any tree |
| PageTable.HungEntry | kernel/vm.c:91-101 | adding a zeroed table page changes no mapping at all |
| PageTable.LeafMissing | kernel/vm.c:84-105 | every tree lacks a level-0 page-table page for some address, because there are fewer pages than places for them |
| Supply.LeafSpot | kernel/vm.c:84-105 | walk finds a leaf exactly where the tree has a page-table page for that place |
| Supply.ChargedLacking | kernel/vm.c:91-101 | every page-table page taken from the free list was lacking before and is not any more |
| PageWalk.Walk | kernel/vm.c:84-105 | lookup: the leaf slot if there is one; with alloc it is created, no mapping changes, and exactly the missing page-table pages are taken; fails only without memory |
| PageWalk.AddTable | kernel/vm.c:91-101 | one new table page below a level, refused exactly when the free list is empty |
| PageWalk.Mappages | kernel/vm.c:144-173 | insert: exactly the given run of pages is mapped, a prefix of it on failure, everything else as before |
| Freewalk.FreeWalk | kernel/vm.c:283-302 | on a tree without leaves every table page of the tree is freed once and nothing else changes; its panic is unreachable |
| Freewalk.LeafAbsent | kernel/vm.c:290-297 | a valid entry met by freewalk is never a leaf |
| Cow.PutShare | kernel/vm.c:358-359 | making an entry shared keeps the invariant and changes nobody's view |
| Cow.MapSharedKeeps | kernel/vm.c:360-363 | mapping the same page in the child with one more reference keeps all counts exact |
| Cow.MapSharedViews | kernel/vm.c:360-363 | the child then sees the parent's bytes, nobody else sees a change |
| Cow.MapFreshKeeps | kernel/vm.c:246-257 | mapping a page of one's own keeps all counts exact |
| Cow.UnmapUserKeeps | kernel/vm.c:178-201 | unmapping and freeing one reference keeps all counts exact |
| Cow.UnmapUserViews | kernel/vm.c:178-201 | only that one page of that one tree disappears from view |
| Cow.UserWrite | kernel/vm.c:430-436 | writing through a writable entry changes what exactly one process sees at one page |
| Vm.Uvmunmap | kernel/vm.c:178-201 | remove: exactly the range is unmapped, no other view changes, references are dropped |
| Vm.Uvmalloc | kernel/vm.c:234-260 | grows by zeroed private pages exactly if enough pages are free for them and the page tables they lack; otherwise every view, mapping and held page is as before |
| Vm.Uvmdealloc | kernel/vm.c:267-279 | shrinks by exactly the pages above the new size, or does nothing |
| Vm.UndoGrowth | kernel/vm.c:247-257 | the rollback removes exactly the pages added so far |
| VmCopy.Uvmcopy | kernel/vm.c:321-371 | succeeds exactly if enough pages are free for the page tables the child lacks; then parent and child share every page below sz and see the same bytes; on failure nobody's view or mapping changed |
| VmCopy.CopyPage | kernel/vm.c:333-366 | one round: one page shared, or the state as before but for table pages, and then no page is left for a page table it lacks |
| UserMem.BreakCow | kernel/vm.c:401-427 | a private writable copy replaces the shared page, no view changes, refused exactly when memory is out |
| UserMem.CopyoutPage | kernel/vm.c:393-437 | one page of copyout: written if the process may write there, otherwise refused with every view as before |
| UserMem.Copyout | kernel/vm.c:388-439 | every touched page was mapped and writable and the bytes appear, in this process only; on failure the same for a prefix that ends at a page boundary, and the reason at the next page |
| UserMem.Walkaddr | kernel/vm.c:111-128 | finds exactly the user pages, and their bytes |
| UserMem.Copyin | kernel/vm.c:444-464 | succeeds exactly when every byte is readable, and returns those bytes |
| UserMem.StoreFault | kernel/trap.c:78-123 | which of resume, kill and crash happens, for every address and state; resume gives a private copy |
| UserMem.UserStore | kernel/trap.c:78-123 | a store succeeds, kills or panics under exactly stated conditions, and changes one byte of one process |
| UserMem.StruckPanics | kernel/trap.c:85-99 | a store that makes the kernel fault changes nobody's view and would do so again; memory is out or the page was not writable |
| TreeLife.Uvmfree | kernel/vm.c:306-311 | the whole tree is gone, all its pages released, all other trees untouched |
| TreeLife.ProcFreepagetable | kernel/proc.c:211-216 | the same with trampoline and trapframe entries, whose pages stay |
| ProcTree.Uvmcreate | kernel/vm.c:206-214 | one more empty tree beside the others, or nothing changed exactly without a free page |
| ProcTree.ProcPagetable | kernel/proc.c:177-206 | a tree with exactly trampoline and trapframe mapped, which takes three pages; with fewer every table page is given back |
| Fork.FindUnused | kernel/proc.c:114-123 | a free slot, or NPROC exactly when the table is full |
| Fork.Restored | kernel/proc.c:287-296 | after a fork that failed, every reference count and the number of free pages are what they were |
| Fork.ForkInv | kernel/proc.c:280-326 | adding the child keeps counts, trees and ownership exact |
| Fork.ForkView | kernel/proc.c:280-326 | after fork everybody sees what eager copying would show |
| Fork.DoFork | kernel/proc.c:280-326 | fork succeeds exactly with a free slot and enough free pages; then it refines eager fork, otherwise counts, free pages and views are restored |
| Fork.ForkTables | kernel/vm.c:321-371 | the child's user memory needs one page table per 512 pages and one above them |
| Processes.Store | kernel/trap.c:78-123 | a store succeeds exactly by what the process sees (memory permitting) and pokes one byte of its view; it panics exactly under `StorePanics` |
| Processes.CopyTo | kernel/vm.c:388-439 | copyout in terms of views: the process may write every page that was written, and on failure not the next one, or memory is out |
| Processes.CopyFrom | kernel/vm.c:444-464 | copyin in terms of views |
| Processes.Growproc | kernel/proc.c:260-275 | sbrk: succeeds exactly if shrinking or if enough pages are free; the view is resized; a failed growth keeps it and turns free pages at most into table pages of that tree |
| Processes.GrowUndoneCounts | kernel/vm.c:247-257 | after a failed uvmalloc each page is as before or has become a table page of the same tree |
| Processes.Freeproc | kernel/proc.c:156-172 | exit removes one view and no other |
| Processes.Userinit | kernel/proc.c:233-255 | works exactly if seven pages are free; the first process then sees one page that starts with the given code |
| Processes.BootInv | kernel/kalloc.c:31-35 | the state after kinit satisfies the invariant |
| Processes.ExactCounts | kernel/kalloc.c:49-92 | each count is the number of mapping entries or one; zero exactly on the free list, once; a writable entry is the only one and not COW |
| Processes.MappedBelowSize | kernel/vm.c:321-371 | every counted entry belongs to a process in the table and lies below its size |
| Processes.NoLeaks | kernel/proc.c:156-172 | when all processes are gone, every page is free |
| Processes.Execute | kernel/vm.c:321-371 | one operation on shared memory is one step of the machine that copies eagerly, with the reply that the views and the free memory determine, except a store that panics, which happens exactly under `StorePanics` and changes no view |
| Processes.Run | kernel/vm.c:321-371 | copy-on-write refines eager copying over every run of fork, store, copyout, copyin, sbrk and exit; a run ends early only at a missing process or at a store that panics in the state reached |
| Processes.StoreCrashes | kernel/trap.c:85-99 | in every state every process has an address at which a store makes the kernel fault |
| Processes.Isolation | kernel/vm.c:388-439 | in every run of the shared memory, a process that does nothing over a stretch sees the same memory before and after it, whatever the others do |
| Processes.CopyOutIn | kernel/vm.c:388-464 | copyin after a successful copyout to the same address returns the bytes written |
| LogDisk.LogPrefix | kernel/log.c:179-191 | any prefix of the log writes, the next one torn, leaves the home blocks and an empty header |
| LogDisk.HomePrefix | kernel/log.c:69-84 | any prefix of the installation, the next write torn, still recovers to the whole transaction |
| LogDisk.CommitCrash | kernel/log.c:194-203 | commit stopped anywhere: before the header write the old state, from it on the new one |
| LogDisk.RecoverLoggedCrash | kernel/log.c:117-123 | recovery stopped anywhere can be run again and still installs the transaction |
| LogDisk.StepRepresents | kernel/log.c:117-203 | every commit, crash and recovery keeps what the disk promises |
| LogDisk.CrashAtomicity | kernel/log.c:68-203 | over every run of commits, crashes and crashed recoveries the home blocks equal the promised image |
| LogDisk.AlwaysRecoverable | kernel/log.c:117-123 | recovery is possible in every crashed state |
| Log.Log.WriteLog | kernel/log.c:179-191 | the loop writes exactly the log copies, in order |
| Log.Log.InstallTrans | kernel/log.c:69-84 | the loop writes exactly the home blocks, in order |
| Log.Log.WriteHead | kernel/log.c:103-115 | one header write |
| Log.Log.Commit | kernel/log.c:194-203 | the list of disk writes whose prefixes the crash lemmas are about |
| Log.Log.RecoverFromLog | kernel/log.c:117-123 | the list of writes of recovery, for whatever header is on disk |
| Log.Log.BeginOp | kernel/log.c:127-142 | enters, and counts one operation more, exactly when no commit runs and the reservation for one more operation fits, otherwise nothing changes |
| Log.Log.LogWrite | kernel/log.c:215-235 | records a new block at the end of the list and absorbs a listed one; refused exactly by the guard; the panic outside a transaction is unreachable |
| Log.Log.EndOp | kernel/log.c:147-175 | commits exactly when this was the only outstanding operation, and then holds the log for the commit |
| Log.Log.CommitAndRelease | kernel/log.c:164-174 | the whole commit, after which the list is empty and operations may start again; that the listed blocks are distinct and fit the log follows from the invariant |
| Log.OperationsAtomic | kernel/log.c:126-203 | a commit stopped at any write, then any number of stopped recoveries and one that ends: all blocks of each operation are as the transaction left them, or all as before |
| Log.WholeTransaction | kernel/log.c:69-84 | the image after a commit holds each block of the transaction with its logged contents |
| LogOps.RunKeeps | kernel/log.c:126-175 | reservation, grouping and once-only bookkeeping hold in every reachable state |
| LogOps.CommitAlone | kernel/log.c:127-166 | while a commit runs no operation is outstanding, and none can start, write or end |
| LogOps.WholeOperations | kernel/log.c:126-203 | each committed transaction is a union of whole operations, and each operation is in exactly one |
| LogOps.NothingForgotten | kernel/log.c:147-203 | in every run, when operations have ended and none is active a commit is under way, and with the log at rest every operation that ended is in a committed group with exactly the blocks it logged |
| LogOps.ReservationSuffices | kernel/log.c:133-138 | with log.size > LOGSIZE a new block within budget never meets the guard |
| LogOps.ReservationFails | kernel/log.c:220-221 | with the log size mkfs chooses it can: a concrete run |
| LogOps.AbsorptionFails | kernel/log.c:220-233 | even with a larger log the guard can refuse a block that is already logged: a concrete run |
| LogOps.WriteGoesThrough | kernel/log.c:220-233 | in one state: exactly when a write within budget passes the guard, and that a new block always does if the log has more than LOGSIZE blocks |
| LogOps.ReservationExactly | kernel/log.c:133-138 | over every run from an empty log: each new block within budget passes the guard exactly when log.size > LOGSIZE |
| Bio.Unlink | kernel/bio.c:127-128 | taking a buffer out leaves a ring of the others in order |
| Bio.LinkFront | kernel/bio.c:129-132 | putting it at the head leaves a ring that starts with it |
| Bio.MoveRing | kernel/bio.c:127-132 | the pointer assignments of brelse give the ring with that buffer first and the order of the rest kept |
| Bio.MoveStamp | kernel/bio.c:117-137 | the ring stays ordered by last release to zero |
| Bio.Bcache.Binit | kernel/bio.c:37-53 | the linked ring holds every buffer once |
| Bio.Bcache.FindCached | kernel/bio.c:66-74 | finds the buffer of the block if any buffer has it |
| Bio.Bcache.FindUnused | kernel/bio.c:77-87 | among the unreferenced buffers, the one released longest ago |
| Bio.Bcache.Bget | kernel/bio.c:59-89 | one more user of the only buffer for the block, recycled least recently used first and never a pinned one; no block reads differently |
| Bio.Bcache.Bread | kernel/bio.c:93-104 | returns the latest value of the block; fails exactly if no buffer holds it and every buffer is referenced; pinned buffers keep block and data |
| Bio.Bcache.Bwrite | kernel/bio.c:107-113 | the block's value reaches the disk; no block reads differently |
| Bio.Bcache.Brelse | kernel/bio.c:117-137 | one user less; the last one moves the buffer to the front and stamps it |
| Bio.Bcache.Modify | kernel/log.c:205-214 | changing a held buffer changes the value of exactly its block |
| Bio.Bcache.LogWrite | kernel/log.c:215-235 | the scan finds the block exactly when its buffer is pinned; a new block is listed and pinned once, a listed one is absorbed; refused exactly by the guard |
| Bio.Bcache.WriteLog | kernel/log.c:179-191 | each listed block is copied to its log block on disk, in order; list, pins and home blocks stay; fails exactly if a log block finds no buffer, and then every buffer is referenced |
| Bio.Bcache.WriteHead | kernel/log.c:103-115 | the header block gets the bytes of the list and nothing else changes on disk; fails exactly if it finds no buffer |
| Bio.Bcache.InstallTrans | kernel/log.c:69-84 | each listed block is on disk at its home and unpinned, in order; nothing is pinned any more and no block reads differently; fails only with every buffer referenced |
| Bio.Bcache.Commit | kernel/log.c:194-203 | the disk writes of the crash proofs in their order; afterwards the list is empty, nothing is pinned and every listed block has its latest value on disk; fails exactly if one of the log's blocks finds no buffer, without users exactly if the list pins them all |
| Bio.CacheCrash | kernel/log.c:194-203 | a crash at any of these writes leaves the old image or the whole transaction |
| Bio.ReadyExactly | kernel/bio.c:77-89 | without users, buffers for the log's blocks are found exactly if fewer than NBUF blocks are listed |
| Bio.FullCommit | kernel/bio.c:88-89 | thirty logged blocks in a log that holds them: commit ends in "bget: no buffers" |
| LogHead.HeadBack | kernel/log.c:103-115 | the list read from a header block is the one written to it |
| Bio.RecycleFlat | kernel/bio.c:77-87 | the block map seen through cache and disk survives recycling |
| FsState.AssignKeeps | kernel/fs.c:383-418 | giving a free block to an empty place keeps "each used block has one owner" |
| FsState.FreshBytes | kernel/fs.c:66-89 | a zeroed fresh block reads like the hole it fills |
| FsState.StoredBytes | kernel/fs.c:518-526 | writing a data block changes those bytes of one inode only |
| FsCode.FileSystem.Balloc | kernel/fs.c:66-89 | the first free block, marked and zeroed; 0 exactly when none is free |
| FsCode.FileSystem.Bfree | kernel/fs.c:92-105 | clears the bit of a used block |
| FsCode.FileSystem.Bmap | kernel/fs.c:383-421 | the block of the place, allocated if missing; ownership kept, no byte of any inode changes, 0 only on a full disk; every changed block is logged |
| FsCode.FileSystem.Readi | kernel/fs.c:472-499 | the slice of the contents; a mapped file is returned whole and nothing is allocated |
| FsCode.FileSystem.Writei | kernel/fs.c:506-539 | splices the bytes that found a block into the contents, other inodes untouched, fully mapped files stay so; -1 exactly out of range; every changed block, bitmap block and inode block is logged |
| FsCode.WriteThenRead | kernel/fs.c:472-539 | what was written is what is read back |
| FsCode.FileSystem.Itrunc | kernel/fs.c:426-453 | contents become empty and exactly the inode's blocks become free; "freeing free block" is unreachable; every changed bitmap block and the inode block are logged |
| FsCode.ReleasedMore | kernel/fs.c:431-445 | the next block itrunc frees is still marked used |
| FsCode.TruncatedState | kernel/fs.c:426-453 | afterwards every used block has one owner and other files are as before |
| FsCode.FileSystem.Filewrite | kernel/file.c:148-175 | chunked writing equals one splice, the offset covers what was written, n is returned exactly when all was; every chunk logs all it changes, at most 7 blocks |
| FsCode.SplicedTwice | kernel/file.c:157-173 | two chunks after one another are one splice |
| FsCode.SmallCount | kernel/file.c:149-155 | bitmap, inode, indirect and at most four data blocks are at most seven |
| Mkfs.Image.constructor | mkfs/mkfs.c:93-117 | the empty image is a valid start |
| Mkfs.Image.Ialloc | mkfs/mkfs.c:221-232 | the next inode, empty, stored in its block beside the others as long as that is no data block |
| Mkfs.Image.BlockFor | mkfs/mkfs.c:267-284 | the next counter value serves as the block; exactly the missing blocks are taken, and it fails exactly when they pass the end of the disk |
| MkfsState.MissingIs | mkfs/mkfs.c:267-284 | in the middle of an append a data block is missing exactly at a block boundary, the indirect block exactly at the first indirect one |
| Mkfs.Image.Iappend | mkfs/mkfs.c:253-294 | appends the bytes to the file's contents; succeeds exactly when the file size and the number of new blocks fit, and takes exactly that many |
| Mkfs.Image.Balloc | mkfs/mkfs.c:235-249 | the bitmap block has exactly the bits of the blocks handed out |
| Mkfs.Image.AddFile | mkfs/mkfs.c:131-161 | inode, directory entry and contents of one more file, on the sectors; succeeds exactly when they fit, with the exact number of blocks taken, while no inode lies in a data block |
| Mkfs.Image.Build | mkfs/mkfs.c:69-173 | a finished image is what mkfs promises exactly if all inodes lie in the inode blocks, that is with at most 206 files; while no inode lies in a data block mkfs succeeds exactly when files, directory and the sum of their blocks fit |
| MkfsState.EntryOf | mkfs/mkfs.c:152-155 | bytes of entry k + 2 of the root directory: inode number k + 2, then the name of file k, cut at 14 bytes and padded with zeros |
| MkfsState.DotEntries | mkfs/mkfs.c:121-129 | the first two entries are "." and "..", both of inode 1 |
| MkfsState.RootFixed | mkfs/mkfs.c:163-168 | after the size fix the root is fully mapped exactly when its entries do not end on a block boundary |
| MkfsState.RootUnmapped | mkfs/mkfs.c:163-168 | with 62 files the root's second block is missing |
| Mkfs.BuildUnmapped | mkfs/mkfs.c:69-173 | mkfs with 62 empty files succeeds and leaves the root with an unmapped second block |
| Mkfs.InodeLost | mkfs/mkfs.c:235-249 | with more than 206 files no file system with these files matches the image, because inode 208 is overwritten by the bitmap |
| Mkfs.BuildLost | mkfs/mkfs.c:69-173 | 207 files of one byte: mkfs succeeds, and inode 208 reads as type, size and addresses of all one bits |
| Mkfs.ShowsInode | mkfs/mkfs.c:185-198 | an inode written to its place is read back, and no other inode and no block of a file changes |
| MkfsRead.ImageReads | kernel/fs.h:32-39 | a complete image read from its sectors alone: type, link count and size at their offsets, and through the block numbers every byte of every file and of the root directory |
| DiskInode.RoundTrip | kernel/fs.h:32-39 | the 64 bytes of an inode decode to the inode they encode |
| DiskInode.FirstBitsAt | mkfs/mkfs.c:243-245 | the bytes that balloc builds have exactly the bits below the count |
| Sleep.StepKeeps | kernel/proc.c:541-609 | every statement of sleep, wakeup, kill and of the lock code keeps the invariant |
| Sleep.DidWakeup | kernel/proc.c:541-585 | a process that gave up the lock to sleep is not passed over by a waker |
| Sleep.NoLostWakeup | kernel/proc.c:541-585 | in every run, a sleeper whose condition holds is still ahead of a waker; with the lock free there is none |
| Sleep.NoSpinDeadlock | kernel/proc.c:541-585 | whoever holds a spinlock can move or waits for a holder who can |
| Sleep.MutualExclusion | kernel/sleeplock.c:22-41 | in every run from the start at most one process is inside each sleeplock |
| SleepCalls.AcquireAlone | kernel/sleeplock.c:22-31 | a call that runs through takes the free lock, records itself and changes nothing else, or sleeps on the taken one with all locks given back |
| SleepCalls.ReleaseAlone | kernel/sleeplock.c:34-41 | a call that runs through frees the lock and makes exactly its sleepers runnable |
| SleepCalls.LockPassesOn | kernel/sleeplock.c:22-41 | after the release a sleeper, once dispatched, has the lock |
| SleepCalls.KilledSleepsAgain | kernel/proc.c:591-609 | a killed process that waits for a taken lock goes back to sleep and the state is as before |
| Family.StepKeeps | kernel/proc.c:280-435 | every statement of fork, exit, reparent and wait keeps the family invariant |
| Family.LivingParent | kernel/proc.c:280-435 | in every run each non-init process that lives or has exited has a living parent |
| Family.ReapedOnce | kernel/proc.c:391-435 | a step reaps at most one pid, which was never reaped before; its parent of that moment gets the status recorded for it |
| Family.StatusOfExit | kernel/proc.c:347-435 | in every run, the status a reaped pid was given is the argument of the call of exit its process made: such a call with another status is not in the run |
| Family.ReapedForever | kernel/proc.c:391-435 | what was reaped is never reaped again |
| Family.NoForgottenZombie | kernel/proc.c:330-385 | nobody sleeps in wait with a zombie child while wait_lock is free |
| Family.GivesUp | kernel/proc.c:427-431 | wait gives up unkilled only without children |
| Family.ForkEnds | kernel/proc.c:280-326 | under any interleaving a fork that ends has made a runnable child of the caller |
| Family.NoLockDeadlock | kernel/proc.c:280-435 | whoever is inside a call can take its next statement, or wait_lock is held by somebody who can |
| FamilyCalls.WaitAlone | kernel/proc.c:391-435 | a call that runs through frees the first zombie child and gives its status, returns at once without children, or sleeps |
| FamilyCalls.ExitAlone | kernel/proc.c:331-385 | a call that runs through gives every child to init, wakes init exactly if there was one, wakes a waiting parent, and leaves a zombie with the status |
| FamilyCalls.ForkAlone | kernel/proc.c:280-326 | a call that runs through adds one runnable child with a new pid and changes nothing else |
| FamilyCalls.ForkFails | kernel/proc.c:292-297 | when memory runs out the slot is free again and only the pid is used up |
| FamilyCalls.ExitThenWait | kernel/proc.c:347-435 | a parent asleep in wait is woken by its child's exit and, scheduled, returns with a zombie child: this one and its status, unless it is init and has just inherited others |
| FamilyCalls.KilledWait | kernel/proc.c:427-434 | a killed process leaves wait although its children run |
| FamilyCalls.NoLostSlot | kernel/proc.c:280-326 | in every run a slot marked as being filled is one some fork is working on |
| Virtio.RingEmpty | kernel/virtio_disk.c:311-313 | the 16-bit indices differ exactly when an entry is unread, also after wrap-around |
| Virtio.RingPush | kernel/virtio_disk.c:273-278 | a new ring entry overwrites nothing unread |
| Virtio.Disk.AllocDesc | kernel/virtio_disk.c:156-166 | the first free descriptor, or -1 when there is none |
| Virtio.Disk.FreeChain | kernel/virtio_disk.c:186-197 | follows the links, frees exactly its three descriptors, ends, and meets no panic |
| Virtio.Disk.Alloc3 | kernel/virtio_disk.c:201-213 | three distinct free descriptors, or the state unchanged exactly when fewer than three are free |
| Virtio.Disk.Start | kernel/virtio_disk.c:216-284 | a well-formed chain of three in the avail ring; refused exactly when two requests are in flight |
| Virtio.Disk.DeviceAccept | kernel/virtio_disk.c:273-278 | the entry the device reads next is the oldest request it has not read, or there is none exactly when the indices agree |
| Virtio.Disk.DeviceComplete | kernel/virtio_disk.c:311-313 | a completed request goes into the used ring with status 0 |
| Virtio.Disk.IntrOne | kernel/virtio_disk.c:311-324 | reports the oldest completion and clears the flag of exactly the buf submitted with it; never panics on status |
| Virtio.Disk.Finish | kernel/virtio_disk.c:286-292 | exactly the request's descriptors become free |
| Virtio.Conservation | kernel/virtio_disk.c:156-213 | free descriptors plus three per request are NUM |
| Virtio.StepKeeps | kernel/virtio_disk.c:216-327 | every interleaving of requests, device and interrupts keeps the invariant, with the two avail writes as separate steps |
| Virtio.DeviceReads | kernel/virtio_disk.c:273-278 | in every state, also between the write of an avail entry and of the index, the device reads the oldest unread request or sees that there is none |
| Virtio.LaidCompleted | kernel/virtio_disk.c:216-284 | a completion between the two writes is the same as one before both |
| Virtio.ReportedExactlyOnce | kernel/virtio_disk.c:216-327 | in every run each submission of a buf is reported exactly once, and the invariant holds at its end |
| Umalloc.NoOverlap | user/umalloc.c:24-90 | blocks do not overlap and together are the arena |
| Umalloc.FreedKeeps | user/umalloc.c:24-44 | free keeps the ring circular, address-ordered, tiled and coalesced |
| Umalloc.FreedMem | user/umalloc.c:33-42 | the header assignments of free give that ring in all four joining cases |
| Umalloc.Allocator.Search | user/umalloc.c:30-32 | the search loop ends, at the block's place in the ring |
| Umalloc.Allocator.Free | user/umalloc.c:24-44 | exactly this block leaves the live ones; the arena stays tiled and coalesced; the contents of the other live blocks are untouched |
| Umalloc.Allocator.Morecore | user/umalloc.c:46-61 | adds exactly sbrk's region to the arena as free cells |
| Umalloc.Allocator.Carve | user/umalloc.c:75-84 | takes a block whole or from its tail; ring and tiling stay right |
| Umalloc.Allocator.Malloc | user/umalloc.c:63-90 | a new live block of the requested size; the scan ends; sbrk at most once and only if nothing fits; 0 exactly when that fails; the contents of live blocks are untouched |
| Umalloc.UserWrite | user/umalloc.c:24-90 | a program that writes only inside its own live blocks keeps the allocator's invariant |
| Umalloc.IntExactly | user/umalloc.c:46-61 | the request reaches sbrk's int unchanged exactly for sizes up to 0x7fffffe0 |
| Umalloc.LargestRequest | user/umalloc.c:46-61 | malloc(0xffffffff) asks sbrk for 16 bytes and records a block of 0x10000001 headers |
| Shell.TokenAt | user/sh.c:267-310 | a token is a maximal word or a symbol and moves the cursor forward |
| Shell.LineSpans | user/sh.c:346-448 | every word of a parsed command is a maximal word of the line, at most nine to a command |
| ShellGrammar.Accepts | user/sh.c:329-448 | a line whose tokens are those of a tree of the grammar is parsed, and the command spells the meaning of the tree |
| ShellGrammar.AcceptsExactly | user/sh.c:329-448 | the parser succeeds exactly on the lines whose tokens are those of some tree with at most nine words to a command |
| ShellGrammar.ItemsComplete | user/sh.c:417-448 | words and redirections in any order: the words in their order, the redirections in the order of their signs |
| ShellGrammar.LineComplete | user/sh.c:346-448 | the same for whole lines anywhere before ")" or the end, which is where the parser stops |
| ShellGrammar.Lexed | user/sh.c:267-310 | a line is read as the tokens written on it, however they are spaced |
| ShellGrammar.ParseWritten | user/sh.c:329-448 | every line of the grammar, written with any spacing, is parsed to its meaning |
| ShellGrammar.ParsePrinted | user/sh.c:329-448 | every command tree with legal words has a line that parses to it, with any spacing |
| ShellGrammar.PlainSyntax | user/sh.c:346-448 | without parentheses: a simple command with words and redirections in any order, pipelines and ";" lists of three nest to the right, `a &` and `a & ; b` are as expected, and `a & b` is refused |
| ShellGrammar.NothingAfterAmpersand | user/sh.c:346-360 | a line with anything but "&", ";" or ")" after an ampersand is refused |
| Shell.EndsOutside | user/sh.c:451-494 | no write of nulterminate falls inside a word |
| Shell.WordsTerminated | user/sh.c:451-494 | afterwards each word is a C string with its own text |
| ShellCode.Gettoken | user/sh.c:267-310 | the loops read exactly the token at the cursor |
| ShellCode.Parseredirs | user/sh.c:376-398 | the loop reads exactly the redirections at the cursor |
| ShellCode.Parseexec | user/sh.c:417-448 | reads exactly a simple command or block with all its words and redirections, or the same panic |
| ShellCode.Parseblock | user/sh.c:401-414 | reads exactly a parenthesised line with its redirections, or the same panic |
| ShellCode.Parsepipe | user/sh.c:363-373 | reads exactly a pipeline, or the same panic; ends because the cursor moves |
| ShellCode.Parseline | user/sh.c:346-360 | reads exactly a line, or the same panic; ends because the cursor moves |
| ShellCode.Nulterminate | user/sh.c:451-494 | writes a zero at the end of every word of the command and nowhere else |
| ShellCode.Parsecmd | user/sh.c:329-343 | a panic with the buffer untouched, or a command whose words are C strings in the buffer |

## Left out

- Assembly, control registers, TLB flushes, accessed and dirty bits, and the kernel's own page table: hardware state without logic of its own.
- exec, pipes, console, system-call plumbing and the other user programs: glue around the parts modelled.
- Spinlock internals: acquire and release are steps. Updates of `page_refcnt` outside `kmem.lock` are not interleaved.
- The bytes of a page seen as page-table words and as data at once; the kernel's packing of the free bitmap into bytes and its copy of an inode in the inode block; the superblock's bytes.
- Two processors inside virtual-memory code at the same time: each memory operation is one step.
- Failing copies from and to user memory inside readi and writei (`kernel/fs.c:522-524`): such a copy leaves a changed buffer unlogged.
- Directories, path names, link counts and inode allocation in the kernel.
- Mkfs.Image.Build: what else goes wrong when inodes lie in data blocks (more than 222 files), beyond the lost inode 208.
- Processes.Run: stops at a store that satisfies `StorePanics`; what the kernel does after its own fault is not described.
- Umalloc.Allocator.Malloc: a request that no free block fits and that is larger than 0x7fffffe0 is excluded, because sbrk then gets another number (`Umalloc.IntExactly`, `Umalloc.LargestRequest`).
- Bio.Bcache.InstallTrans: the call during recovery, where nothing is pinned; `Log.Log.RecoverFromLog` has it without the cache.
- Processes.Userinit: the state after a failure, in which the kernel goes on with a null pointer.
- Virtio.Disk.Start: the memory barriers and the notification of the device; the device is assumed to report success.
- Family.StepKeeps: the closing of files and the release of the working directory in exit, which happen before wait_lock is taken.
- Fairness of the scheduler and "bget: no buffers": not promised by the code.
