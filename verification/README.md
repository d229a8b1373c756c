# A verified model of the kernel's memory, allocator, processes and terminal

This project models four parts of a small 64-bit teaching kernel and its C library, and proves
what they keep over whole runs.

- **Virtual memory with copy-on-write fork** (`sys/paging.c`, `isr14` of `sys/idt.c`, `copytask` and
  `removeProcess` of `sys/process.c`). `PagePool` is the reference-counted free list. `Machine` is a
  class holding physical memory with all page tables in it, updated in place. `PageTree`, `PageWalk`,
  `PageShare` and `MemorySpec` hold the invariant of the tables and the facts about single updates.
  `FlatCow` is the flat view of the same state (one finite map from process and virtual page to
  entry). `ProgramImage` holds VMA lists and the layout of a new program, `Translation` what the
  routines do to address translation and to counts. `EagerCopy` is the reference machine, which has
  no frames and no page tables and in which fork copies everything. `Budget` counts the pages that
  are needed, `Conservation` and `MachineRuns` state what holds over whole runs, and `ByteLaws` what
  programs observe byte by byte.
- **The user-space allocator** (`libc/malloc.c`, and the system call behind it in `sys/process.c`).
  `FreeList` is the theory of coalesced block lists, `Heap` the allocator with its headers in memory.
- **The process table and the scheduler** (`sys/process.c`, `sys/proc_man.c`). `ProcessSpec` is the
  step system and its invariant, `ProcessRuns` and `ProcessLife` the theorems over runs, `ProcessTable`
  the array `q` updated slot by slot and proved to make exactly those steps.
- **The terminal's line buffer** (`sys/terminal.c`) in `Terminal` and **the archive walk**
  (`sys/tarfs.c`) in `Tar`.
- `Kernel` puts table, memory and terminal together; `KernelRuns` states what whole runs of it do.

`dafny verify dfyconfig.toml` checks everything.

## Main results

1. *Copy-on-write refines eager copying, up to one exception* (`MachineRuns.RunOps`,
   `MachineRuns.RunFromBoot`). The reference machine of `EagerCopy` decides by itself which
   operations it makes: a store to a mapped page always lands, a store to an unmapped page of the
   stack adds the page, anything else is refused. Any sequence of new programs, forks, user stores
   with their faults, heap growth and reaping is made on the page tables with the same verdicts and
   the same memory for every process as on that machine, up to the first operation that is outside
   the model or on which the two cannot agree, or until the kernel halts. They disagree *exactly* on
   a store to a mapped page that sharing has made read-only, at an address outside the strict bounds
   of `isr14` (`MachineRuns.Perform`). That is real: after a fork the first byte of the heap, where
   the allocator keeps a header, cannot be written (`MachineRuns.HeapStartAfterFork`). The kernel
   halts only on a frame with more than two sharers, which two forks and a store to the stack are
   enough for (`MachineRuns.ForkTwiceThenStore`), or for want of pages. *It does not run out of pages
   where there is room without sharing*: book for each process its tables, its VMA records and a frame
   for every page it has, as if nothing were shared and with three tables for each new page; then
   pages run out in a run only if the bookings exceed the pages there are
   (`MachineRuns.Overbooked`, `Budget.Room`). No page leaks: when every process has been reaped, all
   pages are free again (`MachineRuns.RunFromBoot`, `Budget.FreeChange`). Which stores are let through,
   how far the heap grows and where a program is laid out is stated a second time in the comparisons
   and constants of the code (`Machine.Judged`, `MachineRuns.AsWritten`), and what all of it means for
   programs through the page tables alone: a store is read back and changes no other byte of any
   process, and a child reads what its parent reads (`ByteLaws.StoreLaw`, `ByteLaws.ForkLaw`,
   `ByteLaws.SegmentStoreAfterFork`).
2. *The page tables are a flat map* (`PageWalk.WalkIsFlat`, `Translation.*`): the four-level walk of
   the hardware, with the write permission of all levels, is one look-up, `init_pages_for_process` is
   one update of it in all its branches, and `copytables` and `dealloc_pml4` copy and remove exactly
   one process.
3. *Reference counts* (`Machine.Memory.Valid`): in every state reachable from boot the count of a
   user frame is the number of leaves that map it, a writable leaf is the only mapping of its frame,
   and every other leaf is read-only and marked copy-on-write.
4. *Fork, exit and wait conserve memory* (`MachineRuns.ForkExitWait`): the fork, any stores by parent
   and child and the reaping are made as on the reference machine, and afterwards the free pages are
   as many as before, less the tables and pages that the parent gained, whatever the parent shares
   with other processes.
5. *The free list is the canonical form of the free units* (`Heap.RingDetermined`,
   `Heap.FreeAll`, `Heap.MallocThenFree`), allocation is first fit from the roving pointer
   (`Heap.Allocator.Malloc`), and the arenas lie in memory that the kernel has mapped
   (`ByteLaws.GrowArena`).
6. *The process forest, one teardown for each life, no lost wakeup, bounded round robin*
   (`ProcessRuns.*`, `ProcessSpec.BoundedRoundRobin`). Init is the one process that can miss a
   wakeup: over every run it does so if and only if some process that is not its child dies and
   leaves it a zombie while it waits (`ProcessRuns.RunInit`), and there is such a run
   (`ProcessRuns.InitMisses`). The life cycle of a slot is a table of its own, read off the process
   table alone, and every step obeys it (`ProcessLife.LifeCycle`, `ProcessLife.Processor`). Over every
   run a stopped process stays as it is until the one event it waits for (`ProcessLife.RunStopped`),
   `sleep(n)` lasts exactly `n` seconds (`ProcessLife.SleepLasts`), and a process that can run has the
   processor before it has been given away as often as there are slots (`ProcessLife.RunFair`).
7. *Terminal lines are a FIFO, up to one exception.* The text typed is a fold over the scan codes that
   readers never alter. Over every log of scan codes and readers the buffer has held that text if and
   only if no reader has wiped it, that is, come when `no_lines` was positive, no newline was pending
   and a character other than NUL was (`Terminal.TypedIsText`). Without a wipe the lines read and then
   the lines pending are the lines typed (`Terminal.LinesAreFifo`, `Terminal.Session`). What each key
   types in which shift state is stated over every log (`Terminal.CharTypes`, `Terminal.ShiftTypes`,
   `Terminal.ControlTypes`). `no_lines` is too high
   by exactly the number of backspaces that went over an unread newline (`Terminal.CountIsExact`), so
   before the first of them nothing is wiped (`Terminal.RightCountIsSafe`); after one it can be
   (`Terminal.WipedLine`). A reader stays asleep with a line left for it if and only if the reader
   woken for that line was killed (`ProcessRuns.RunReaders`), and there is such a run
   (`ProcessRuns.ReaderStranded`).
8. *The archive walk inverts the archive layout* (`Tar.WalkInvertsLayout`, `Tar.InitArchive`), for
   headers as archivers write them (`Tar.HeaderIsMember`).
9. *The whole kernel refines a simple system* (`KernelRuns.RunCalls`, `KernelRuns.RunFromStart`). The
   reference system has the step system of the process table, memory in which every process owns its
   pages outright, and a log of the terminal. It decides by itself which stores it makes and ends a
   program at a store it refuses, and it decides from the log what a reader gets, also when the line
   count is wrong. Any schedule of system calls, user stores and keys, from boot and through any
   number of segmentation faults, takes the kernel where it takes that system. The run ends early
   only at a store or heap growth outside the model, at a store on the edge (result 1), at a full
   terminal buffer, or because the kernel halts: on a frame with more than two sharers, or for want
   of pages where the bookings of result 1 exceed what there is. In every state a slot of the table is
   in use exactly when its process has an address space, every reap is one teardown of that address
   space, and the lines that readers wait for are the lines counted at the buffer
   (`Kernel.Kernel.Valid`).

## How the model relates to the code

- A frame is a number; an entry is its frame with the present, writable and copy-on-write bits. Index
  arithmetic is written with `/` and `%`. Section 4.5 of the Intel 64 and IA-32 Software Developer's
  Manual, Volume 3A, describes the walk.
- Each frame is seen both as 512 entries and as 4096 bytes. The owner of each page is a ghost field,
  and the invariant proves that a page is used in one way only, so neither view can disturb the
  other.
- Only user-mode accesses below slot 511 of the PML4 are modelled (`IsUser`). Slot 511 is the kernel
  half that all processes share; what is proved of it is that a child gets its parent's and that no
  routine disturbs anybody's (`HalfSet`, `HalvesKept`).
- `getPTE` follows upper tables without looking at their present bits, so a store that passes the
  bounds check is modelled where the tables above the page exist. One that fails it is a segmentation
  fault wherever it goes.
- The bounds of `isr14` are strict, as the code has them.
- Where the kernel spins, an outcome is returned: no free page (`None`, `false` or `OutOfMemory`, always
  with an empty free list) and a write to a frame with more than two sharers (`TooManySharers`).
- New pages keep the bytes that their frame held. What `create_process` copies into the pages of a
  new program counts as stores of that program.
- The four nested loops of `copytables` and `dealloc_pml4` have the same body on each level; they are
  one method that calls itself on the level below. The four branches of `init_pages_for_process` are
  three descents: a table that was just attached has no present entry, so below it the next descent
  attaches again.
- The kernel direct map is in place, so a page and the kernel's address of it are the same thing.
- The allocator's addresses are in units of 16 bytes, the size of a header; `base` lies below the heap.
- A step of the process table is one stretch of kernel code between two points where another process
  can run. `wait` scans twice in a row when it is scheduled again; nothing can change between the two
  scans and they are one step. Init and idle are not killed, no process kills itself, and `fork` finds
  a free slot.
- The code map of the terminal is a parameter, with a row for code 58, which the table in the code
  does not have. A reader that finds the count positive but no newline wipes the pending text and
  stays running, as the code does; that is the step `MissLine` of the process table.

## Model

| member | source | states |
|---|---|---|
| `PagePool.Pool.MemMap` | sys/paging.c:16-51 | on an empty list, for any region: afterwards the list is acyclic and holds exactly the pages flagged free, each once; the flagged pages are those past the kernel and before the last page of the region, and no record outside the region is touched |
| `PagePool.Pool.Append` | sys/paging.c:24-41 | a page goes to the end of the list and no other record loses its address, flag or count |
| `PagePool.Pool.Reserve` | sys/paging.c:43-49 | a page outside the usable range is recorded in use and is on no list |
| `PagePool.Pool.Allocate` | sys/paging.c:74-84 | fails exactly on an empty list; otherwise returns a page that was free and no longer is, with count one, and keeps the list discipline |
| `PagePool.Pool.Free` | sys/paging.c:52-64 | drops one reference, or returns the page to the front of the list with the last one; an address that is not a page's own changes nothing; the list stays in order exactly when the page was not free already, and is endless otherwise |
| `PagePool.Pool.EndlessChain` | sys/paging.c:58-62 | links from the head that stay within a set of pages spell out no finite list |
| `PagePool.Pool.GetRefCount` | sys/paging.c:65-67 | the count of the page that holds the address |
| `PagePool.Pool.IncRefCount` | sys/paging.c:68-70 | one reference more for that page and nothing else different |
| `FlatCow.ShareSharers` | sys/paging.c:382-389 | after a fork the mappings of a frame are those it had and one twin in the child for each of the parent's |
| `FlatCow.ShareOk` | sys/paging.c:382-389 | a fork keeps: a writable leaf is the only mapping of its frame, all others are marked copy-on-write |
| `FlatCow.ForkedIsCopy` | sys/paging.c:357-396 | sharing every page shows all processes what copying every page would |
| `FlatCow.UnshareOk` | sys/idt.c:211-227 | a fault on a copy-on-write page with one or two sharers makes it writable without changing what any process reads |
| `FlatCow.PutPrivate` | sys/idt.c:211-227 | a store through a writable leaf changes one byte in the view of one process only |
| `FlatCow.GrownOk` | sys/idt.c:230-240 | a page added to a process shows the bytes its frame held and changes no other view |
| `FlatCow.DropOk` | sys/paging.c:398-433 | teardown removes the view of one process and leaves all others |
| `FlatCow.StoreRuns` | sys/idt.c:210-240 | a fault followed by the retried store is a run of one or two events of the flat machine |
| `FlatCow.EventRefinesEager` | sys/idt.c:185-247 | each single event shows every process what the machine with eager copies shows |
| `FlatCow.CowRefinesEager` | sys/paging.c:357-396 | over every run of events that does not halt, each process reads what it would read if every fork had copied its memory |
| `PageTree.LinkedOk` | sys/paging.c:223-229 | attaching a cleared table keeps the tables a forest in which each page has one owner and each upper entry points at its child with flags 7 |
| `PageTree.MappedOk` | sys/paging.c:284-292 | writing a leaf keeps the invariant of the tables |
| `PageTree.UnlinkedOk` | sys/paging.c:419-421 | unlinking a table without present entries leaves nothing hanging and keeps tables and counts |
| `PageTree.EmptyTable` | sys/paging.c:412-421 | below a table without present entries there is neither a table nor a leaf |
| `PageTree.EmptyRoot` | sys/paging.c:398-433 | a PML4 without present user entries means a process without tables or leaves |
| `PageTree.DroppedOk` | sys/paging.c:413-417 | dropping a leaf and one reference keeps each count equal to the number of mappings, freeing the frame only with the last |
| `PageTree.AreaAddedOk` | sys/process.c:204-216 | a VMA record added to either end of a list has a page of its own that nothing else uses |
| `PageWalk.WalkIsFlat` | sys/paging.c:126-135 | for every user address the four-level walk, with the writable bits of all levels, gives what the flat map holds for that process and page |
| `PageWalk.AddressParts` | sys/paging.c:126-135 | the four indices and the offset make up the address, and slot 511 is out of reach of user addresses |
| `PageWalk.HasTablesFrom` | sys/paging.c:126-135 | following present bits down the levels succeeds exactly when the lowest table exists |
| `PageWalk.MappedBelow` | sys/paging.c:361-394 | every mapped page lies below a table that the loops reach, at every level |
| `PageShare.SharedEntryOk` | sys/paging.c:382-389 | sharing one leaf, with its frame counted once more, keeps tables and counts |
| `PageShare.ShareStep` | sys/paging.c:382-389 | one turn of the innermost loop extends the shared range by one page |
| `PageShare.Accounting` | sys/paging.c:16-84 | every page is free, the kernel's, a table, a mapped user frame or a VMA record, and the five counts add up |
| `MemorySpec.KernelSlotHalf` | sys/paging.c:221-221 | setting slot 511 of one PML4 leaves the kernel half of every other process |
| `MemorySpec.LinkedHalves` | sys/paging.c:223-229 | attaching a table below a user slot leaves the kernel half of every process |
| `MemorySpec.AbsentBelow` | sys/paging.c:361-376 | an absent upper entry stands for a range without mapped pages, so skipping it loses nothing |
| `MemorySpec.GrewCopy` | sys/idt.c:216-221 | remapping one of two sharers and dropping one reference leaves every count right |
| `MemorySpec.CopiedOk` | sys/idt.c:216-221 | after the copy all that is left to make the counts right is to drop one reference to the old frame |
| `MemorySpec.StarvedMeansFew` | sys/paging.c:357-396 | if pages run out while tables are copied, there were fewer free pages than tables still to copy |
| `MemorySpec.ForkCost` | sys/paging.c:357-396 | copying takes no more pages than the parent has tables |
| `MemorySpec.ShrunkDrops` | sys/paging.c:398-433 | emptying a PML4 removes exactly the leaves of its process |
| `Translation.InitPagesIsUpdate` | sys/paging.c:220-295 | afterwards the page translates to the given frame with flags 7, and every other user page of every process translates as before |
| `Translation.CopyTablesTranslation` | sys/paging.c:357-396 | parent and child translate alike, read-only and marked, to the frames the parent had; nobody else's translation is different |
| `Translation.DeallocTranslation` | sys/paging.c:398-433 | nothing translates for the process torn down and everything does as before for the others |
| `Translation.CopyTablesCounts` | sys/paging.c:384-384 | the mappings of a frame grow by exactly the number of the parent's leaves that name it |
| `Translation.CopyCounts` | sys/paging.c:382-389 | the reference count of every user frame grows by that number |
| `Translation.DeallocCounts` | sys/paging.c:412-416 | every user frame loses one reference for each leaf of the process, and is free exactly when there was no other |
| `Translation.UserIffMapped` | sys/paging.c:52-70 | a frame is user memory exactly when some leaf maps it |
| `Translation.DeallocUndoesCopy` | sys/paging.c:413-416 | tearing the child down gives every frame back the set of mappings it had before the fork |
| `Machine.Memory.constructor` | sys/paging.c:16-51 | after boot the invariant holds with no user process, whatever memory contains |
| `Machine.Memory.Take` | sys/paging.c:74-84 | a free page comes into kernel hands; with none left nothing is different |
| `Machine.Memory.Attach` | sys/paging.c:224-229 | a cleared table hangs below the entry; every other table, leaf and count is as before |
| `Machine.Memory.Descend` | sys/paging.c:223-250 | the table below the entry exists afterwards, found or attached, at the cost of tables only |
| `Machine.Memory.InitPages` | sys/paging.c:220-295 | the leaf maps the given frame and the page translates to it, all other user pages as before; only tables of this process were added, at most three, from free pages, no count in use is different, and the kernel half is in place; it fails only with fewer than three free pages |
| `Machine.Memory.FindTable` | sys/paging.c:222-289 | the lowest table on the path exists afterwards, at the cost of at most three tables |
| `Machine.Memory.SetLeaf` | sys/paging.c:284-292 | writing the leaf keeps tables and counts except that of the new frame |
| `Machine.Memory.GetPte` | sys/paging.c:126-135 | the frame of the lowest table on the path of the address |
| `Machine.Memory.NewRoot` | sys/process.c:195-196 | a process gets an empty address space from one free page |
| `Machine.Memory.ShareEntry` | sys/paging.c:383-387 | both leaves are the same entry, read-only and marked, and counts still match mappings |
| `Machine.Memory.CopyLeaves` | sys/paging.c:382-389 | all pages of one lowest table are shared, in address order |
| `Machine.Memory.CopyTable` | sys/paging.c:361-394 | all pages below one table are shared; only the child gained tables, each the twin of one of the parent's; if pages run out, a twin is still missing |
| `Machine.Memory.CopyBelow` | sys/paging.c:376-391 | one present entry: the child gets a table of its own and the pages below are shared |
| `Machine.Memory.CopyTables` | sys/paging.c:357-396 | the child translates as the parent does, both read-only and marked; the parent's tables stay where they are and the child's are new pages; each count grows by the leaves of the parent; the child's kernel half is the parent's |
| `Machine.Memory.CopyTask` | sys/process.c:192-217 | exactly the fork event; the child's VMA list equals the parent's in pages of its own; no other process is affected; it fails only with fewer free pages than the parent has tables and records |
| `Machine.Memory.CopyAreas` | sys/process.c:201-216 | the VMA list is copied record by record |
| `Machine.Memory.AddArea` | sys/process.c:204-216 | one record, in a fresh page, is added at one end |
| `Machine.Memory.DropEntry` | sys/paging.c:413-417 | the entry is cleared and its frame loses one reference or is freed |
| `Machine.Memory.DeallocLeaves` | sys/paging.c:412-418 | no entry of the lowest table is present, and only its own leaves are gone |
| `Machine.Memory.DeallocTable` | sys/paging.c:400-431 | no user entry of the table is present; only what hung below it is gone, and its pages are free |
| `Machine.Memory.DeallocBelow` | sys/paging.c:401-430 | one present entry: the table below is emptied, freed once and unlinked |
| `Machine.Memory.FreeTable` | sys/paging.c:419-421 | the emptied table goes back to the pool and its entry is cleared |
| `Machine.Memory.DeallocPml4` | sys/paging.c:398-433 | exactly the leaves of this process are gone and nothing translates for it; each frame lost one reference for each of its leaves and is free with the last; all user entries are clear |
| `Machine.Memory.FreeAreas` | sys/process.c:425-430 | every VMA record of the process goes back to the pool |
| `Machine.Memory.FreeArea` | sys/process.c:426-430 | the first record goes back and the rest of the list remains |
| `Machine.Memory.RemoveProcess` | sys/process.c:424-433 | exactly the teardown event; no table, record or root of the process is left and no other process is affected |
| `Machine.Memory.FreeRoot` | sys/process.c:432-432 | the empty PML4 goes back to the pool |
| `Machine.Memory.FreePage` | sys/paging.c:52-64 | a page in use loses a reference or goes to the front of the free list |
| `Machine.Memory.CheckBounds` | sys/idt.c:190-202 | true exactly when the address is inside the extended stack area or strictly inside some VMA |
| `Machine.Memory.MapFresh` | sys/idt.c:230-240 | an absent page gets a frame that nobody mapped, and only this process is affected |
| `Machine.Memory.CopyPage` | sys/idt.c:216-221 | with two sharers the page is private and equal afterwards, and the old frame has one reference less |
| `Machine.Memory.ReleaseShared` | sys/idt.c:221-221 | the other sharer keeps the frame with a count of one |
| `Machine.Memory.Reclaim` | sys/idt.c:222-223 | the only sharer gets its frame back writable, at no cost |
| `Machine.Memory.CowFault` | sys/idt.c:211-227 | a marked page becomes private and writable, or the kernel halts exactly for more than two sharers |
| `Machine.Memory.PageFault` | sys/idt.c:185-247 | a segmentation fault exactly when the address is out of bounds or unmapped outside the stack; a halt exactly for more than two sharers; otherwise the access goes through and only this process is affected |
| `Machine.Memory.Access` | sys/idt.c:185-247 | the frame that a store goes to: found by the walk, or by a second walk after the fault |
| `Machine.Memory.Store` | sys/idt.c:185-247 | a user store with its fault and retry is a run of flat events, or has no effect; comparison by comparison: an unmapped page is added strictly between the ends of the stack area and nowhere else, a shared page is copied or taken over strictly inside any area and in the first stack page, and every other refused store is a segmentation fault; a store to a mapped page makes no table, and pages run out only when fewer than four are free or, for a page with two sharers, when none is |
| `Machine.JudgedOk` | sys/idt.c:190-240 | the outcomes of the handler are those of these comparisons |
| `Machine.Memory.GrowHeap` | sys/process.c:535-545 | the heap ends a whole number of pages higher, more than `n` and at most `n + 4096` bytes for `n >= 0`, one page for `-4096 < n < 0` and none below; exactly the pages in between are mapped, each by one event, and no other area changes; it fails only with fewer than four free pages for each |
| `Machine.Memory.GrowPages` | sys/process.c:539-543 | the loop maps the pages after the heap one by one and the area ends behind them |
| `ProgramImage.GrowthIs` | sys/process.c:539-539 | how far the heap grows for any `int`, with division truncating toward zero |
| `Machine.Memory.GrowPage` | sys/process.c:539-543 | one page at the end of the heap, and the end one page further |
| `Machine.Memory.AddPage` | sys/paging.c:220-295 | a page that was not mapped is one event, and the kernel half is in place |
| `Machine.Memory.AddPageAt` | sys/process.c:128-131 | the same by page number, with the pages taken so far accounted for |
| `Machine.Memory.AddRecord` | sys/process.c:113-127 | a VMA record at the front of a list takes one page |
| `Machine.Memory.Spawn` | sys/process.c:92-159 | a new program has exactly the pages on which some byte from the page of a segment's start up to its end lies, and the first stack page; its VMA list is the stack, the empty heap and the segments in order, at the addresses in the code; each page is one event, and it fails only with fewer free pages than it may need |
| `Machine.Memory.LoadSegments` | sys/process.c:104-142 | the program headers are loaded from the last to the first |
| `ProgramImage.PagesOfSegment` | sys/process.c:116-131 | the pages of a segment are those that the loop over its addresses reaches |
| `ProgramImage.ImageIsMapped` | sys/process.c:104-150 | the pages of the image, page by page |
| `ProgramImage.FirstList` | sys/process.c:113-159 | the VMA list of a new program, number by number |
| `Machine.Memory.StartProcess` | sys/process.c:98-105 | an empty address space and an empty VMA list |
| `Machine.Memory.LoadSegment` | sys/process.c:111-131 | a record at the front of the list and a page for each part of the segment |
| `Machine.Memory.LoadPages` | sys/process.c:128-131 | the pages of a range, each one event |
| `Machine.Memory.StackAndHeap` | sys/process.c:144-159 | the records of heap and stack and one page of stack |
| `ProgramImage.SegmentFits` | sys/process.c:107-131 | segments without a page in common are mapped without overwriting a leaf |
| `EagerCopy.AddedByEvents` | sys/process.c:539-543 | pages added one by one show what the reference machine shows when it adds them |
| `EagerCopy.WrittenByEvents` | sys/idt.c:210-240 | the events of a store show what the reference machine shows after it |
| `Machine.Memory.TableCheck` | sys/paging.c:126-135 | present bits all the way down mean that `getPTE` reaches the lowest table |
| `MachineRuns.Perform` | sys/paging.c:357-433 | any one operation agrees with the reference machine, in verdict and in what all processes see, if and only if it is not a store to a shared page outside the strict bounds; it does what the comparisons and constants of the code say, leaks no page and keeps every process within its booking; it halts only with fewer free pages than it may need or, unchanged, on a crowded frame |
| `MachineRuns.RefusalAgrees` | sys/idt.c:191-209 | of the stores that the kernel refuses the reference machine refuses all but those to mapped pages |
| `MachineRuns.StoreAgrees` | sys/idt.c:210-240 | a store that goes through is made by the reference machine too, with the same result |
| `MachineRuns.DoSpawn` | sys/process.c:92-159 | a new program is the same on both machines |
| `MachineRuns.DoFork` | sys/process.c:192-217 | a fork on the machine is a copy on the reference machine |
| `MachineRuns.DoWrite` | sys/idt.c:185-247 | a store agrees exactly off the edge, and a refused one changes nothing |
| `MachineRuns.DoGrow` | sys/process.c:535-545 | heap growth is the same on both machines |
| `MachineRuns.DoReap` | sys/process.c:424-433 | reaping is the same on both machines |
| `MachineRuns.ClearIsMappable` | sys/process.c:538-543 | pages that do not translate are exactly the pages that the process does not map |
| `MachineRuns.RunOps` | sys/process.c:192-217 | of any sequence of operations the first `n` are made with the verdicts and the memory of the reference machine, without leaking a page; `n` is short of the end only where the next operation is outside the model or on the edge, writes a crowded frame, or runs out of pages, which are then fewer than it may need and fewer than are booked in all |
| `MachineRuns.CanAgree` | sys/idt.c:190-202 | decides on the tables and the VMA list whether the next operation is covered and off the edge |
| `MachineRuns.RefinesMore` | sys/paging.c:357-396 | a run that agrees and one more operation that agrees are a run that agrees |
| `MachineRuns.RunFromBoot` | sys/process.c:83-159 | the same from memory after boot, with no process yet, in terms of the reference machine and the free pages at boot alone; once all processes have been reaped every page is free again |
| `MachineRuns.Overbooked` | sys/paging.c:74-84 | an operation that may find too few free pages has bookings that exceed the pages there are |
| `MachineRuns.StorePaid` | sys/idt.c:210-240 | a store keeps every process within its booking, and one to a mapped page books nothing |
| `MachineRuns.HaltsNow` | sys/paging.c:74-84 | after a run that agrees, a halt for want of pages is one where memory without sharing would be full |
| `Budget.HoldingsBound` | sys/paging.c:16-84 | all tables, leaves and VMA records together are no more than what is booked for all processes |
| `Budget.Room` | sys/paging.c:16-84 | free pages and bookings cover all pages that are not the kernel's, with one to spare where a frame has two sharers |
| `Budget.FreeChange` | sys/paging.c:52-84 | an operation on one process takes from the free list exactly the tables, records and frames that are new |
| `Budget.AllFree` | sys/paging.c:52-84 | without processes every page that is not the kernel's is free |
| `Budget.SharedSaves` | sys/paging.c:382-389 | a frame with two sharers means fewer frames than mapped pages |
| `Budget.WithinGrown` | sys/paging.c:220-295 | pages added to a process raise what it holds by no more than the pages taken |
| `Budget.WithinForked` | sys/process.c:192-217 | a child holds no more than is booked for its parent |
| `Budget.WithinReaped` | sys/process.c:424-433 | reaping one process keeps the others within their bookings |
| `MachineRuns.HeapStartAfterFork` | sys/process.c:145-146 | a program that grows its heap, forks and stores to the first byte of its heap is ended by the kernel, while the reference machine makes the store; 24 free pages are enough for it |
| `MachineRuns.ForkTwiceThenStore` | sys/idt.c:211-227 | a new program that forks twice and stores to its stack halts the kernel, while the reference machine makes the store; 25 free pages are enough for it |
| `MachineRuns.TwoForksCrowd` | sys/paging.c:382-389 | after two forks every page of the parent is read-only and has three sharers |
| `ByteLaws.ByteShown` | sys/paging.c:126-135 | the byte that the walk leads to is the byte that the process is shown |
| `ByteLaws.StoreLaw` | sys/idt.c:185-247 | after a store the process reads the value at that address, and every other byte of every process is what it was |
| `ByteLaws.ForkLaw` | sys/process.c:192-217 | after a fork the child reads at every address what the parent read, and everybody else what they read before |
| `ByteLaws.ReapLaw` | sys/process.c:424-433 | after a reap the process reads nothing and everybody else what they read before |
| `ByteLaws.GrowthLaw` | sys/process.c:535-545 | heap growth and a new program change no byte that could be read |
| `ByteLaws.SpawnLaw` | sys/process.c:92-159 | a new program can read every byte of its segments, the pages around them and its first stack page, and nothing else |
| `ByteLaws.SegmentStoreAfterFork` | sys/idt.c:190-221 | a program of any image forks and stores to a byte strictly inside any segment: the store goes through, is read back and changes no other byte of anybody, whenever enough pages are free |
| `ByteLaws.TwoSharers` | sys/paging.c:382-389 | after the fork such a page has two sharers and is read-only |
| `ByteLaws.GrowArena` | libc/malloc.c:68-75 | the allocator's end of the heap and the kernel's move together, and every unit of the new arena is mapped |
| `ByteLaws.SameGrowth` | sys/process.c:539-543 | a growth by whole units is the number of bytes by which the allocator moves its end |
| `MachineRuns.ForkExitWait` | bin/fc/fc.c:15-26 | the fork, every store and the reap are made as on the reference machine, or it is said where the round stopped and why; after the whole round the free pages are as many as before, less the tables and pages that the parent gained |
| `MachineRuns.RoundStores` | bin/fc/fc.c:15-26 | the stores between the fork and the reap, with the same promise |
| `MachineRuns.StoreMove` | sys/idt.c:185-247 | one such store is a move of parent or child that affects nobody else |
| `Conservation.ForkExitWaitConserves` | sys/process.c:424-433 | the same for any trace of moves between a fork and its reaping; what the parent shares with others is what it shared |
| `Conservation.ThreeSharers` | sys/idt.c:224-227 | while the child lives, a frame the family shares with an outsider has three sharers, so no store can unshare it |
| `Conservation.FramesSplit` | sys/paging.c:52-70 | the frames in use are those of the others and one for each page of the process, less those it shares with them |
| `FreeList.Canonical` | libc/malloc.c:37-51 | two ascending lists without empty or touching blocks that cover the same units are equal |
| `FreeList.InsertedOk` | libc/malloc.c:37-49 | joining a block to its neighbours leaves the list coalesced and adds exactly its units |
| `FreeList.CutOk` | libc/malloc.c:96-104 | cutting the end off a block, or taking it whole, leaves the list coalesced |
| `Heap.JoinNextLinked` | libc/malloc.c:37-42 | after the first half of `free` the headers spell out the ring but for one pointer |
| `Heap.JoinPrevLinked` | libc/malloc.c:44-49 | after the second half they spell out the coalesced ring |
| `Heap.CutLinked` | libc/malloc.c:96-104 | after unlinking or trimming, the headers spell out the ring without the units taken |
| `Heap.TakenOwned` | libc/malloc.c:96-105 | units cut from the free list overlap no live block, and all units still belong to one arena |
| `Heap.Allocator.Link` | libc/malloc.c:33-51 | the search stops within a lap at the one place where the block fits, and the ring is the coalesced one |
| `Heap.Allocator.FindPlace` | libc/malloc.c:33-35 | the search ends, at the last block below the address |
| `Heap.StopsAtPlace` | libc/malloc.c:33-35 | the two conditions of the search hold at exactly one place of the ring |
| `Heap.Allocator.LinkHere` | libc/malloc.c:37-51 | the pointer changes at that place make the ring with the block in it |
| `Heap.Allocator.Free` | libc/malloc.c:27-52 | exactly the units of the block become free, the block is no longer live, the ring is canonical and the roving pointer stands on the last block below it |
| `Heap.Allocator.Sbrk` | sys/process.c:535-545 | the end of the heap moves up by whole pages, strictly more than asked for |
| `Heap.Allocator.Morecore` | libc/malloc.c:63-80 | one arena of the size asked for, or of 1024 units if that is more, becomes free, and the roving pointer stands at or just before a block that is large enough |
| `Heap.Allocator.TakeAt` | libc/malloc.c:96-105 | the last units of the block are handed out, new and above `base`, exactly they leave the free list, and the roving pointer stands on the block before |
| `Heap.Allocator.Malloc` | libc/malloc.c:82-112 | fails exactly when nothing fits and the kernel refuses; grows exactly once when nothing fits and never otherwise; otherwise the units come from the end of the first block after the roving pointer that is large enough |
| `Heap.Allocator.Search` | libc/malloc.c:94-111 | the same for the loop, which ends for every ring and place of the roving pointer |
| `Heap.Allocator.TakeFit` | libc/malloc.c:96-107 | the block at which the search stops is cut |
| `Heap.FirstFound` | libc/malloc.c:94-96 | that block is the first large enough one after the roving pointer |
| `Heap.Allocator.Start` | libc/malloc.c:89-92 | the first call makes a ring of `base` alone |
| `Heap.UnitsEnough` | libc/malloc.c:87-87 | the block holds the bytes asked for and wastes less than one unit beside its header |
| `Heap.RingDetermined` | libc/malloc.c:27-52 | the ring depends only on the live blocks and the arenas, not on the order of the calls |
| `Heap.OneBlockPerArena` | sys/process.c:535-545 | with nothing live the free blocks are the arenas, one for each call of `morecore` |
| `Heap.MallocThenFree` | libc/malloc.c:96-104 | an allocation without growth, freed again, restores the ring exactly |
| `Heap.FreeAll` | libc/malloc.c:27-52 | freeing all live blocks, in any order, ends with one free block for each arena |
| `ProcessSpec.Scan` | sys/proc_man.c:19-24 | the scan ends on a running process or where it began, and passes no running process |
| `ProcessSpec.YieldCloser` | sys/proc_man.c:13-25 | with a running process in the table, a yield selects a running process and either selects this one or brings it strictly nearer |
| `ProcessSpec.BoundedRoundRobin` | sys/proc_man.c:13-25 | a process that stays running is selected within as many yields as there are slots, whatever the others do |
| `ProcessSpec.StepOk` | sys/process.c:412-500 | every step keeps: used slots carry their own number, no process has a free or zombie parent, parents are older, nobody but init waits for a child already dead, and lives exceed teardowns by one exactly in used slots |
| `ProcessSpec.DieOk` | sys/process.c:412-423 | exit and kill hand the children to init and wake a waiting parent, and keep all of that |
| `ProcessSpec.ReapedOk` | sys/process.c:436-442 | a reap by the parent keeps all of that |
| `ProcessSpec.BlockedOk` | sys/process.c:443-444 | a process that blocks with nothing to wait for missed keeps all of that |
| `ProcessRuns.BootOk` | sys/proc_man.c:6-12 | the table with init, idle and the first program satisfies the invariant |
| `ProcessRuns.RunOk` | sys/process.c:412-500 | every state of every run does |
| `ProcessRuns.LeadsToInit` | sys/process.c:218-229 | parent links lead from every process to init through living processes |
| `ProcessRuns.NoCycle` | sys/process.c:218-229 | no process but init is its own ancestor |
| `ProcessRuns.ZombieLeavesByReap` | sys/process.c:434-482 | a zombie leaves that state only by a reap of its current parent, which tears its tables down once; nothing else tears anything down |
| `ProcessRuns.OneTeardownPerLife` | sys/process.c:424-453 | in every state of a run each finished life of a slot has been torn down exactly once |
| `ProcessRuns.WaitpidReturnsSameLife` | sys/process.c:466-482 | `waitpid` for an own child returns exactly when that child, in the life it had at the call, is a zombie |
| `ProcessRuns.InitMissesOnly` | sys/process.c:412-423 | a death leaves init waiting for a zombie it already has exactly when it is the death of a process that is not its child and leaves it a zombie |
| `ProcessRuns.StepInit` | sys/process.c:412-482 | of all steps of the system exactly those deaths do |
| `ProcessRuns.RunInit` | sys/process.c:412-482 | over every run, up to every point, init misses no wakeup if and only if there was no such step |
| `ProcessRuns.InitMisses` | sys/process.c:412-453 | in every table with room for five processes there is a run from boot that leaves init waiting for a zombie child |
| `ProcessSpec.MissingOk` | sys/terminal.c:171-186 | a reader misled by the count keeps the invariant of the process table |
| `ProcessRuns.StepReaders` | sys/terminal.c:160-188 | a step makes the lines counted exceed the readers already woken while a reader sleeps exactly when it kills a woken reader, the lines being at least as many as the woken, and a reader sleeps |
| `ProcessRuns.RunReaders` | sys/terminal.c:160-188 | over every run, up to every point, no reader has slept with a line left for it if and only if there was no such killing |
| `ProcessRuns.ReaderStranded` | sys/terminal.c:160-188 | in every table with room for five processes there is a run from boot that leaves a reader asleep with a line for it |
| `ProcessLife.LifeCycle` | sys/process.c:412-500 | for every step and slot: when the slot is taken, stops and in which state, wakes and by which event, dies and is reaped; who its parent is; and how long it still sleeps |
| `ProcessLife.Processor` | sys/proc_man.c:13-25 | after a step that gives the processor away the first running slot in the circle has it, after every other the same one as before; only Enter and readers change the number of lines |
| `ProcessLife.StaysStopped` | sys/process.c:412-500 | a stopped process stays in its state and is not selected unless the step is the event it waits for or kills it |
| `ProcessLife.RunStopped` | sys/process.c:412-500 | the same over every run |
| `ProcessLife.SleepStep` | sys/timer.c:24-31 | one step of a sleeper: a second less at each tick, awake at the last |
| `ProcessLife.StillAsleep` | sys/timer.c:24-31 | over every run with fewer ticks than seconds left the process still sleeps |
| `ProcessLife.SleepLasts` | sys/process.c:492-500 | over every run in which the caller of `sleep(n)` is not killed it is suspended and does not run before the `n`-th second is over, and can run when it is |
| `ProcessLife.FairStep` | sys/proc_man.c:13-25 | every time the processor is given away a process that can run comes nearer to it |
| `ProcessLife.RunFair` | sys/proc_man.c:13-25 | over every run a process that can run and is not killed has the processor before it has been given away as often as there are slots |
| `ProcessLife.SleeperRuns` | sys/timer.c:24-31 | after `sleep(n)`, `n` seconds and that many turns the sleeper has run |
| `ProcessTable.Table.constructor` | sys/proc_man.c:6-12 | the array is the table after boot |
| `ProcessTable.Table.NewPid` | sys/process.c:13-20 | the lowest free slot, or -1 exactly when there is none |
| `ProcessTable.Table.Yield` | sys/proc_man.c:13-25 | the loop selects what the scan selects |
| `ProcessTable.Table.Fork` | sys/process.c:218-229 | a slot that was free holds a running child of the caller, and the step keeps the invariant |
| `ProcessTable.Table.MakeZombie` | sys/process.c:454-464 | zombie, children to init, waiting parent woken, nothing else |
| `ProcessTable.Table.Exit` | sys/process.c:412-423 | the step of a process that dies and gives the processor away |
| `ProcessTable.Table.Kill` | sys/process.c:454-465 | the same for another process, without giving the processor away |
| `ProcessTable.Table.Reap` | sys/process.c:437-440 | the slot is free and one teardown is counted |
| `ProcessTable.Table.WaitScan` | sys/process.c:434-453 | reaps the lowest zombie child, or waits when there is none |
| `ProcessTable.Table.CallWaitpid` | sys/process.c:466-475 | reaps the child if it is a zombie already, or waits |
| `ProcessTable.Table.ResumeWaitpid` | sys/process.c:474-481 | reaps the child, or yields again |
| `ProcessTable.Table.Sleep` | sys/process.c:492-500 | for no seconds nothing happens; otherwise the slot of the caller is suspended for that time, no other slot changes and another process is selected |
| `ProcessTable.Table.Tick` | sys/timer.c:24-31 | the step of a second for all sleepers |
| `ProcessTable.Table.WakeDue` | sys/timer.c:24-31 | every suspended slot has one second less and runs again exactly when none is left; nothing else changes |
| `ProcessTable.Table.ReadLine` | sys/terminal.c:169-188 | takes a line when there is one and sleeps when there is none |
| `ProcessTable.Table.MissLine` | sys/terminal.c:171-186 | a reader for whom a line is counted but not there stays running, in the reading loop, and another process is selected |
| `ProcessTable.Table.NewLine` | sys/terminal.c:160-168 | one line more, and the lowest sleeper woken |
| `Terminal.Buffer.Press` | sys/terminal.c:77-148 | after any scan code the buffer, the line count and the shift state are what the log of all inputs amounts to |
| `Terminal.Buffer.EditBuffer` | sys/terminal.c:83-146 | the pending text is edited as the key says in the shift state it finds, and only Enter counts a line |
| `Terminal.CharTypes` | sys/terminal.c:124-143 | after every log a character key types the second character of its row if Shift or Control is held and the first if not, and neither is held afterwards |
| `Terminal.ShiftTypes` | sys/terminal.c:118-143 | Shift types nothing and holds for one character |
| `Terminal.ControlTypes` | sys/terminal.c:111-143 | Control types its own sign and holds for one character |
| `Terminal.OtherKeysType` | sys/terminal.c:83-110 | Enter types and counts a newline, a backspace takes back the last unread character, releases do nothing |
| `Terminal.Buffer.ReadInput` | sys/terminal.c:169-188 | the reader gets the first line if one is counted and there, and afterwards buffer and count are what the log amounts to, whether or not the count was right |
| `Terminal.Buffer.TakeLine` | sys/terminal.c:171-185 | the first line goes out of the buffer, or the pending text is wiped, or nothing happens |
| `Terminal.Buffer.CopyLine` | sys/terminal.c:172-182 | the copying loop finds the first newline if there is one and blanks what it has passed |
| `Terminal.BackspaceMiscounts` | sys/terminal.c:93-100 | after every log, a backspace over an unread newline leaves the count one further off |
| `Terminal.EnterBackspace` | sys/terminal.c:93-110 | Enter and Backspace at a new terminal leave a count of one and no newline |
| `Terminal.CountIsExact` | sys/terminal.c:93-110 | over every log `no_lines` is the unread newlines plus the backspaces over one, so it is right if and only if there was none |
| `Terminal.LinesAreFifo` | sys/terminal.c:169-188 | over every log in which no reader wipes the buffer, the lines that readers got, followed by the pending lines, are the lines of the text typed with backspaces applied |
| `Terminal.TypedIsText` | sys/terminal.c:169-188 | over every log, up to every point, the buffer has held the text typed if and only if no reader has wiped it |
| `Terminal.StepFaithful` | sys/terminal.c:169-188 | one input keeps it so exactly when it is not such a reader |
| `Terminal.RightCountIsSafe` | sys/terminal.c:169-188 | as long as no backspace has gone over an unread newline no reader wipes anything |
| `Terminal.WipedLine` | sys/terminal.c:93-188 | Enter, Backspace, `a`, a reader, `b`, Enter: the next reader gets a NUL in place of the `a` |
| `Terminal.BufferLines` | sys/terminal.c:169-188 | over every log the lines that readers got, followed by the pending lines, are the lines the buffer has held |
| `Terminal.ReadIsResults` | sys/terminal.c:169-188 | what has been read is the lines that readers got, each with its newline |
| `Terminal.Session` | sys/terminal.c:77-188 | for the buffer in memory: the first `n` inputs are played, `n` being short of the end only when a character finds the buffer full, and the lines handed out are the lines typed unless a reader wiped the buffer |
| `Terminal.LinesOfJoined` | sys/terminal.c:169-188 | cutting into lines undoes joining them |
| `Tar.GetSize` | sys/tarfs.c:11-23 | the octal value of the eleven characters, most significant first, in 32 bits |
| `Tar.OctalOfDigits` | sys/tarfs.c:11-23 | decoding undoes writing a number in octal digits |
| `Tar.HeaderIsMember` | include/sys/tarfs.h:7-25 | a header with the size in octal at its place among the fields makes a member of any content that fits |
| `Tar.EntryBlocks` | sys/tarfs.c:52-57 | a member takes its header and the least number of blocks for its contents |
| `Tar.HeaderSize` | sys/tarfs.c:50-50 | the size that the header at an address declares |
| `Tar.TarFs.InitTarfs` | sys/tarfs.c:45-59 | the recorded addresses are the visits of the walk, which has left the image unless the table of 200 is full |
| `Tar.StepOverEntry` | sys/tarfs.c:52-57 | from the header of a member the walk goes to the end of its padded contents |
| `Tar.WalkOfLayout` | sys/tarfs.c:45-59 | every walk over an archive visits the member headers in order |
| `Tar.ZeroHeader` | sys/tarfs.c:11-23 | what a block of zeros decodes to, and how far it sends the walk |
| `Tar.InitArchive` | sys/tarfs.c:45-59 | on such an image `init_tarfs` itself leaves exactly those records and their number |
| `Tar.WalkInvertsLayout` | sys/tarfs.c:45-59 | for at most 199 members followed by zero blocks, in an image smaller than that jump, the walk records exactly the member headers and the first zero block |
| `Kernel.StepUsed` | sys/process.c:412-482 | after a step the slots in use are those before, one more after a fork and one less after a reap |
| `Kernel.StaysTied` | sys/process.c:424-440 | if address spaces come and go with those slots, a slot is in use exactly when its process has one |
| `Kernel.Kernel.constructor` | sys/process.c:49-68 | after boot only the first program has an address space of its own |
| `Kernel.Start` | sys/process.c:83-159 | from memory after boot to a valid kernel in which the first program has been made as on the reference machine and within its booking, unless there are fewer free pages than are booked for it |
| `Kernel.Kernel.TornDownOnce` | sys/process.c:424-453 | a process has an address space exactly while the lives begun in its slot exceed the teardowns by one |
| `Kernel.Kernel.Fork` | sys/process.c:218-248 | one slot more, and for it exactly a copy of the caller's memory, within the caller's booking; it halts only with fewer free pages than the caller has tables and records |
| `Kernel.Kernel.Exit` | sys/process.c:412-423 | a process dies and keeps its address space for its parent to reap |
| `Kernel.Kernel.Kill` | sys/process.c:454-465 | the same for another process |
| `Kernel.Kernel.TearDown` | sys/process.c:424-440 | the slot that a step frees loses its address space, exactly as on the reference machine |
| `Kernel.Kernel.Wait` | sys/process.c:434-453 | a zombie child is reaped and its memory torn down once, or the caller waits and memory is untouched |
| `Kernel.Kernel.CallWaitpid` | sys/process.c:466-475 | the same for one child |
| `Kernel.Kernel.ResumeWaitpid` | sys/process.c:474-481 | the same when scheduled again |
| `Kernel.Kernel.Store` | sys/idt.c:203-209 | a store agrees with the reference machine exactly off the edge; a segmentation fault is an exit of the running process that leaves memory as it was; otherwise the kernel has halted with fewer free pages than the store needs or, unchanged, on a crowded frame |
| `Kernel.Kernel.Grow` | sys/process.c:535-545 | heap growth of the running process is that of the reference machine, pages and end of the heap included; it halts only with fewer free pages than it may need |
| `Kernel.Kernel.Key` | sys/terminal.c:77-168 | Enter adds a line to the buffer and to the count that readers wait for, and wakes one |
| `Kernel.Kernel.Read` | sys/terminal.c:169-188 | for every count, right or wrong: a reader gets the first line of the buffer if one is counted and there, sleeps if none is counted, and stays running if one is counted and not there |
| `Kernel.ReadLines` | sys/terminal.c:169-188 | for every count the step that the reader makes in the table and its turn at the buffer leave the same line count |
| `KernelRuns.MakeCall` | sys/process.c:412-545 | any one system call, store or key takes the kernel where it takes the reference system and keeps every process within its booking, or it is said which exception it is |
| `KernelRuns.MakeStep` | sys/process.c:412-500 | a step of a process does to table, memory and terminal log what it does in the reference system |
| `KernelRuns.MakeFork` | sys/process.c:218-248 | a fork does so too, or the free pages were fewer than the caller has tables and records |
| `KernelRuns.MakeRead` | sys/terminal.c:169-188 | a reader does so too, whether or not the line count is right |
| `KernelRuns.MakeWait` | sys/process.c:434-482 | waiting reaps a child and its memory there and here, or neither |
| `KernelRuns.MakeStore` | sys/idt.c:185-247 | a store by the running program lands as in private memory, or both systems refuse it and the program is over in both |
| `KernelRuns.MakeGrow` | sys/process.c:535-545 | heap growth by the running program adds the pages that it adds there |
| `KernelRuns.HaltedTooMuch` | sys/paging.c:74-84 | over every run, pages run out only where the bookings with the next call exceed what there is |
| `KernelRuns.RunCalls` | sys/process.c:412-545 | of any schedule of calls, stores and keys the first `n` take the kernel where they take the reference system, segmentation faults and readers with a wrong count included; `n` is short of the end only at an operation on memory outside the model or on the edge, at a full terminal, on a crowded frame, or where the bookings exceed the pages there are |
| `KernelRuns.RunFromStart` | sys/process.c:83-159 | the same from boot, with the free pages at boot |

## Left out

- Inline assembly, CR3 and stack switching, the TLB, interrupt stubs and the TSS.
- `map` where it creates tables, the boot mapping loop of `init_ia32e_paging` with its self-mapping, and `getPhysical`.
- `kmalloc` of more than one page; the VMA records need one.
- Parsing of ELF images, argument stacking and `execvpe`; `Spawn` takes the segments as a parameter.
- The counter that makes a second out of timer interrupts.
- `setTruePath`, `octal_to_binary`, `get_file_address` and the file descriptors.
- Disk, bus and screen drivers, libc wrappers, the shell and the programs other than `bin/fc`.
- Machine.Memory.InitPages: the frame given is in kernel hands, as every caller has it; overwriting a leaf is followed up only in the two-sharer case, where the old frame is released.
- Machine.Memory.PageFault: write faults only, and an address whose upper tables exist if it is within bounds; otherwise `getPTE` follows entries that are not present.
- Machine.Memory.Store: the same.
- Machine.Memory.GetPte: the tables on the path exist.
- Machine.Memory.constructor: the free pages are whole pages, that is, the region of `mem_map` begins at a page boundary.
- Machine.Memory.Spawn: no two segments share a page, nor does one contain the first stack page; the code would overwrite a mapped page without freeing it.
- Machine.Memory.GrowHeap: the pages behind the heap are unmapped and below the kernel half; the code does not check and would overwrite a mapped page without freeing it.
- Machine.Memory.GrowPage: the same.
- MachineRuns.DoGrow: the same; `MachineRuns.RunOps` stops before such growth.
- MachineRuns.DoWrite: as for `Machine.Memory.PageFault`; `MachineRuns.RunOps` stops before such a store.
- MachineRuns.DoSpawn: as for `Machine.Memory.Spawn`.
- Machine.Memory.LoadSegment: as for `Machine.Memory.Spawn`.
- Machine.Memory.LoadPages: as for `Machine.Memory.Spawn`.
- Machine.Memory.StackAndHeap: as for `Machine.Memory.Spawn`.
- Heap.Allocator.Malloc: the request fits in an `int` after rounding; sums of sizes in the 32-bit size field do not wrap.
- Heap.Allocator.Sbrk: a refusal by the kernel is a parameter of `Malloc`, since the system call itself never returns -1.
- ProcessTable.Table.Fork: a free slot exists; with none the code would write before the table.
- Kernel.Kernel.Fork: the same.
- Kernel.Kernel.Kill: the same as for the table.
- KernelRuns.RunCalls: the schedule is one that the process table allows, with the restrictions on `fork` and `kill` named here.
- ProcessTable.Table.Kill: the target is alive, is neither init nor idle, and is not the caller.
- Heap.Allocator.Sbrk: only the addresses; that the pages are mapped is `ByteLaws.GrowArena`, for a heap that begins at a page boundary, as `create_process` makes it.
- Terminal.Buffer.Press: a code that puts a character into the buffer needs room there; the code does not check.
- Terminal.Buffer.EditBuffer: the same.
- Kernel.Kernel.Key: the same.
- Tar.TarFs.InitTarfs: the image is a whole number of blocks; the walk stops where the table of 200 would overflow.
- Tar.WalkInvertsLayout: member sizes are small enough that the 32-bit step does not wrap.
