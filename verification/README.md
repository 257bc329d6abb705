# xv6 in Dafny

A model, with proofs, of seven parts of the xv6-riscv kernel and its user library: the
redo log over the buffer cache, the buddy allocator, Sv39 page tables over the page
allocator, the file block layer, processes with their locks and CPUs, the virtio disk
driver, and the Kernighan and Ritchie heap. `dafny verify dfyconfig.toml` checks all of
it.

## How it is laid out

Each part has a specification on values, in which the state is a datatype and each
change is a function, and, where the code works in place, a class whose methods follow
the code and are proved against that specification. Properties of whole runs are lemmas
about the specification.

| part | files |
|---|---|
| links shared by the LRU list and the buddy lists; small helpers | `ring.dfy`, `lists.dfy`, `options.dfy`, `sets.dfy` |
| disk, buffer cache, log | `disk.dfy`, `bio.dfy`, `log_spec.dfy`, `log_cache.dfy`, `log_system.dfy`, `log.dfy`, `log_limit.dfy` |
| buddy allocator | `bits.dfy`, `buddy_spec.dfy`, `buddy_init.dfy`, `buddy.dfy` |
| page tables and page allocator | `sv39.dfy`, `vm_spec.dfy`, `vm_effects.dfy`, `vm_count.dfy`, `vm.dfy`, `vm_fork.dfy` |
| file blocks and file writes | `fs_spec.dfy`, `fs_effects.dfy`, `fs_log.dfy`, `fs_room.dfy`, `fs.dfy`, `fs_limit.dfy` |
| processes | `procs.dfy`, `procs_inv.dfy`, `procs_moves.dfy`, `procs_data.dfy`, `procs_runs.dfy`, `procs_progress.dfy`, `procs_calls.dfy`, `procs_turns.dfy` |
| virtio disk | `vdisk_spec.dfy`, `vdisk_steps.dfy`, `vdisk_data.dfy`, `vdisk.dfy` |
| user heap | `umalloc_spec.dfy`, `umalloc.dfy` |

Invariants are written clause by clause: a predicate about one block, one slot, one
process or one pair, and a quantifier over it. A panic of the source appears in a method
as an assertion that its condition does not hold, or as an outcome the contract names.

## Main results

- **Log.** Stop any run of any number of processes anywhere, with the block being written
  left torn, any number of times, recovery included: what recovery then finds is the
  result of a prefix of the committed transactions, with every transaction whose commit
  returned (`LogSystem.CrashAtomicity`). Only the header write is taken as atomic. The
  code on the buffer cache refines this system: each call of begin_op, log_write, end_op,
  commit and recovery is a run of its steps (`Log.LogState`), and keeps a cache in which
  every logged block is pinned with the contents last logged and every other block that
  nobody holds is as on disk. So commit writes to the log what was last logged, with
  readers holding other blocks meanwhile.
- **Panics of the log.** An operation within its reservation never meets the fullness
  test of log_write if and only if the log has more than LOGSIZE blocks
  (`LogSystem.OverflowCondition`); the image mkfs writes has exactly LOGSIZE
  (`LogSystem.MkfsLogTooSmall`), and a write that would be absorbed can meet it whatever
  the size (`LogSystem.AbsorptionOverflows`). NBUF equals LOGSIZE: commit fails in bget
  if and only if something is logged and the blocks logged, with those that others
  reference, are NBUF or more (`Log.LogState.CommitAndWake`), which three operations
  that log the most they may bring about (`LogLimit.FullLogPanics`).
- **Buddy allocator.** Over every run, live blocks, free blocks and reserved ranges
  partition the heap; the books depend only on the live set, so freeing everything
  restores them bit for bit; malloc fails if and only if no aligned block of the size is
  unoccupied, and otherwise cuts the left end off a smallest free block that is large
  enough, with all other free blocks left alone (`Buddy.Allocator.Malloc`). For a range [start, end) that keeps bd_init within its tables, its panic is
  met if and only if some size has bd_initfree visit one pair twice
  (`Buddy.PanicCondition`), as for 320 bytes from address 16 (`Buddy.PanicExample`).
- **Page tables.** The three-level table refines a flat map; every operation says which
  translations change and that no other does; failures roll back; pages are conserved;
  no page is ever mapped for two users. Growing and copying an address space succeed if
  and only if the free list has a page for each new page and for each table missing on
  their paths (`Vm.Memory.Uvmalloc`, `Vm.Memory.Uvmcopy`). After a fork, whatever parent,
  child and others write in any order, parent and child each read the parent's old memory
  under their own writes (`VmFork.ForkIsolates`).
- **Files.** A bit is set just for metadata and for blocks with one owner; reads and
  writes are those of one byte sequence per file. A write is whole if and only if its
  source can be read, the file stays within MAXFILE blocks and there are as many free
  blocks as it must add, over all chunks of filewrite (`Fs.FileSystem.Filewrite`). The
  blocks a write logs are told exactly. One chunk of filewrite logs at most MAXOPBLOCKS blocks, and as many if and only
  if it spans four blocks of which just the one it begins inside is there, needs an
  indirect block, and the first four free blocks have their bits in different bit map
  blocks (`FsLog.LimitReached`); there is such a disk (`FsLimit.LimitExample`).
- **Processes.** Over every interleaving of any number of CPUs: no lost wakeup on sleep
  locks, in begin_op or in wait, no process with a dead parent, no process on two CPUs.
  And things happen: from every reachable state without a held lock, a CPU that scans
  comes by its own steps to run any process that is RUNNABLE (`ProcsTurns.Progress`); it
  does so with no other process run before if and only if that process is the first
  RUNNABLE one from where it scans (`ProcsProgress.DispatchIff`). Each system call, run
  with its locks free, has exactly its effect (`ProcsCalls`), and from every boot state
  there is a run in which a child is forked, exits and is reaped by its parent's wait
  (`ProcsTurns.FamilyRun`).
- **Virtio.** Over every interleaving of driver and device: each request is performed
  exactly once, on its own buffer, before it ends, with the data moved that it asks for
  (`VdiskData.EndedMoved`); no ring entry is overwritten; no index is confused by wrapping
  around.
- **User heap.** Free blocks never touch, units are conserved, and both searches end.
  malloc gives a block that holds the bytes asked for with less than one unit to spare,
  from the first free block after the last one used that fits (`Umalloc.Heap.Malloc`). The
  allocator has only units that the kernel gave it as long as what it asks of sbrk is less
  than 2^31 bytes, and not otherwise (`Umalloc.Heap.Malloc`, `Umalloc.HugeRequest`).

## Hypotheses

- Log: the header write is atomic; the other blocks may be left torn. The buffer cache
  is modelled one critical section at a time, on one device. Who changes a buffer logs it
  before releasing it. Commit finds no block of the transaction held: on such a block it
  would wait for the holder's sleep lock. No operation logs more than MAXOPBLOCKS blocks.
- Buddy allocator: the metadata takes at most half of the heap and ends below the end of
  memory, which is short of the power of two that the heap is rounded to (`Buddy.Ranged`);
  firstk is asked for at most 2^63 bytes; the heap is smaller than 2^31 bytes, since
  blk_index and addr keep byte offsets in an int.
- Page tables: pages are mapped for user code only as that user's own memory; pages
  mapped without PTE_U (trampoline, trapframe, kernel) may be shared. A mapping has at
  least one of R, W, X.
- Files: a copy from user memory that fails leaves the block as it was. The mkfs layout
  with no file contents is the first state.
- Processes: acquire and release are atomic. killed() may answer anything.
- Virtio: the device does what section 5.2 of VIRTIO 1.1 asks and reports success. A
  buffer has one request at a time, since its sleep lock is held, and its holder does not
  change it meanwhile.
- User heap: base lies below what sbrk gives; sbrk gives units not in use yet; the
  program does not write to headers.

## Where code and comments differ

- The comment on uvmdealloc (kernel/vm.c:258-262) allows oldsz to be larger than the
  process; the code then panics in uvmunmap, which asks that the mappings exist. The
  model follows the code.
- The comment on filewrite (kernel/file.c:149-152) counts two blocks of slop for
  non-aligned writes; what the bound rests on is that the first block of a non-aligned
  write is there already, since files have no holes.

## Model

| member | source | states |
|---|---|---|
| `Ring.UnlinkRing` | kernel/list.c:27-30 | unlinking a member leaves a doubly linked ring of the others in the same order |
| `Ring.PushRing` | kernel/list.c:42-49 | pushing a new member leaves a ring with it at the front |
| `Bio.MovedRing` | kernel/bio.c:122-132 | the six pointer writes of brelse turn the ring of an order into the ring of that order with the buffer moved to the front |
| `Bio.SomeFree` | kernel/bio.c:75-88 | while fewer than NBUF blocks are referenced, some buffer is free |
| `Bio.CanObtain` | kernel/bio.c:58-89 | bget panics if and only if nobody references the block and NBUF others are referenced |
| `Bio.Lookup` | kernel/bio.c:65-73 | the forward scan finds a buffer for the block if and only if one is cached |
| `Bio.LeastRecent` | kernel/bio.c:75-87 | the backward scan finds the least recently used buffer with no references, if and only if there is one |
| `Bio.RecycleUpdate` | kernel/bio.c:77-84 | recycling an unreferenced buffer keeps at most one buffer per block and changes no block's contents as readers see them |
| `Bio.WriteThrough` | kernel/bio.c:107-112 | writing a buffer out changes the disk at its block only and no reader's view |
| `Bio.Bcache.constructor` | kernel/bio.c:37-53 | after binit the cache shows the disk, with nothing referenced and one ring over all buffers |
| `Bio.Bcache.Get` | kernel/bio.c:59-89 | bget fails if and only if the block is not cached and every buffer is referenced; a referenced buffer is never recycled, and what is recycled is the least recently used of the others |
| `Bio.Bcache.Bread` | kernel/bio.c:93-103 | the block is referenced and locked and the buffer holds the block's latest contents, unless nobody references it and NBUF other blocks are referenced |
| `Bio.Bcache.Data` | kernel/bio.c:93-103 | the data of a locked buffer is the block's latest contents |
| `Bio.Bcache.SetData` | kernel/log.c:184-186 | changing a locked buffer changes what later readers of that block see, and not the disk |
| `Bio.Bcache.Bwrite` | kernel/bio.c:107-112 | the disk gets the latest contents of that block, as one block write |
| `Bio.Bcache.Brelse` | kernel/bio.c:117-137 | one reference fewer; the buffer moves to the front of the LRU order just if that was the last one |
| `Bio.Bcache.Bpin` | kernel/bio.c:140-144 | one reference more, and nothing else |
| `Bio.Bcache.Bunpin` | kernel/bio.c:147-151 | one reference fewer, and nothing else |
| `LogSpec.HeadRoundTrip` | kernel/log.c:86-114 | what write_head encodes read_head decodes |
| `LogSpec.LogPhase` | kernel/log.c:179-191 | writes to the log area, whatever their contents, change nothing that recovery would make |
| `LogSpec.HeaderPhase` | kernel/log.c:103-114 | the one header write turns the image into one that recovers to the state after the transaction |
| `LogSpec.InstallPhase` | kernel/log.c:69-83 | writes to the home blocks named by the header, whatever their contents, change nothing that recovery would make |
| `LogSpec.InstalledHome` | kernel/log.c:69-83 | once installed, the home blocks hold the recovered state |
| `LogSpec.ClearPhase` | kernel/log.c:117-123 | the writes of a full recovery leave the recovered state in the home blocks and an empty log |
| `LogSpec.HomeUntilHeader` | kernel/log.c:194-203 | up to the header write a commit changes no home block |
| `LogSpec.CrashBeforeHeader` | kernel/log.c:194-203 | a crash at any write of commit up to the header, with that write torn, loses the transaction whole |
| `LogSpec.CrashAfterHeader` | kernel/log.c:194-203 | a crash at any later write of commit, with that write torn, keeps it whole |
| `LogSpec.RecoverCrash` | kernel/log.c:117-123 | a crash at any write of recovery, with that write torn, leaves an image that recovers to the same state |
| `Log.QuietTracks` | kernel/log.c:179-191 | with no logged block held, what the cache has for the logged blocks is what was last handed to log_write, and they are pinned |
| `Log.TracksCommitted` | kernel/log.c:194-203 | after the writes of a commit every block that nobody holds is as on disk, with nothing left pinned by the log |
| `Log.PinnedCount` | kernel/log.c:179-191 | a buffer is left for a log block if and only if the blocks logged and the others referenced are fewer than NBUF |
| `Log.LogState.constructor` | kernel/log.c:55-65 | a log on any disk a crash may leave is valid, with recovery to be done |
| `Log.LogState.ReadHead` | kernel/log.c:87-97 | the header in memory is the one on disk |
| `Log.LogState.WriteHead` | kernel/log.c:103-114 | exactly one block is written, and it encodes the header |
| `Log.LogState.WriteLog` | kernel/log.c:179-191 | exactly the latest contents of the logged blocks are written, to the log slots in order, and no home block; bget's panic is met if and only if every buffer is referenced, before any write |
| `Log.LogState.InstallTrans` | kernel/log.c:69-83 | exactly the log slots' contents are written, to their home blocks in order, and each block is unpinned unless recovering |
| `Log.LogState.Commit` | kernel/log.c:194-203 | the block writes are those of log, header, home blocks, empty header, in that order; the header in memory is empty and nothing stays pinned; or bget's panic is met before any write, if and only if every buffer is referenced |
| `Log.LogState.RecoverFromLog` | kernel/log.c:117-123 | the block writes are those of installing the log on disk and then the empty header |
| `Log.LogState.Recover` | kernel/log.c:55-65 | recovery is a run of the system that ends with it serving, and keeps the invariant |
| `Log.LogState.BeginOp` | kernel/log.c:127-142 | begin_op goes on if and only if no commit is under way and MAXOPBLOCKS for each outstanding operation and the new one, added to the header's entries, are within LOGSIZE; then one more operation is outstanding; either way it is that step of the system |
| `Log.LogState.EndOp` | kernel/log.c:147-165 | end_op is that step of the system; its panic is not met; the last operation is to commit |
| `Log.LogState.CommitAndWake` | kernel/log.c:166-175 | the rest of end_op is a run of the system through all block writes of the commit, with the contents last logged; it fails in bget if and only if the blocks logged and the others referenced are NBUF or more |
| `Log.LogState.LogWrite` | kernel/log.c:215-235 | the two panics happen just on their conditions; otherwise it is that step of the system: the block is in the header once, pinned just if it was not there, with its present contents |
| `Log.LogState.Bread` | kernel/bio.c:93-103 | reading a block, in or out of an operation, keeps the invariant of cache, header and disk |
| `Log.LogState.Modify` | kernel/log.c:205-214 | so does changing a buffer that is held |
| `Log.LogState.Brelse` | kernel/bio.c:117-137 | and so does releasing it with its changes logged |
| `LogLimit.FullLogPanics` | kernel/log.c:179-191 | with a log that never overflows, three operations log ten blocks each and end, and the commit fails in bget |
| `LogSystem.InvStep` | kernel/log.c:126-235 | every step of every process, every block write and every crash keeps the invariant of disk, header and reservations |
| `LogSystem.InvRun` | kernel/log.c:126-235 | so does every run |
| `LogSystem.GroupsGrow` | kernel/log.c:194-203 | a transaction whose header reached the disk is never lost or changed by any later run, crashes included |
| `LogSystem.CrashAtomicity` | kernel/log.c:68-203 | after any run and a torn crash, full recovery leaves the home blocks as the committed transactions made them, with every one whose commit returned |
| `LogSystem.ServingContents` | kernel/log.c:55-65 | whenever the system serves operations the home blocks hold exactly the committed transactions |
| `LogSystem.CommitUndisturbed` | kernel/log.c:127-175 | while a commit is under way no operation is, and no step changes the header |
| `LogSystem.CommitRun` | kernel/log.c:166-203 | from the end of the last operation, all block writes and the return are a run of the system, which ends with the transaction in the home blocks |
| `LogSystem.OpensWithWakeup` | kernel/log.c:127-175 | begin_op's condition ceases to hold only in end_op, which wakes the sleepers, or when the power fails |
| `LogSystem.NoLostWakeup` | kernel/log.c:127-175 | a process sleeps in begin_op only while begin_op's condition holds, so never with nothing outstanding and nothing committing |
| `LogSystem.Reservation` | kernel/log.c:127-142 | header entries plus unused reservations never exceed LOGSIZE; entries are distinct and are home blocks |
| `LogSystem.OverflowCondition` | kernel/log.c:219-222 | an operation with reservation left never meets the fullness panic if and only if the log has more than LOGSIZE blocks |
| `LogSystem.MkfsLogTooSmall` | mkfs/mkfs.c:25 | with nlog == LOGSIZE there is a run in which such an operation meets it |
| `LogSystem.AbsorptionOverflows` | kernel/log.c:219-228 | for every log with a slot there is a run in which writing again a block already logged meets it |
| `Bits.SetBit` | kernel/buddy.c:41-59 | setting a bit changes that bit and no other |
| `Bits.ClearBit` | kernel/buddy.c:41-59 | clearing a bit changes that bit and no other |
| `Lists.ListHeap.LstInit` | kernel/list.c:15-19 | a new empty list; the other lists are as they were |
| `Lists.ListHeap.LstEmpty` | kernel/list.c:22-24 | true if and only if the list is empty |
| `Lists.ListHeap.LstPush` | kernel/list.c:42-49 | the element is at the front of that list; no other list changes |
| `Lists.ListHeap.LstRemove` | kernel/list.c:27-30 | the element is off its list, wherever it was, and the order of the rest is kept |
| `Lists.ListHeap.LstPop` | kernel/list.c:33-39 | the first element is returned and removed |
| `Lists.OneListChanged` | kernel/list.c:15-49 | lists over one memory stay apart when one of them changes |
| `BuddySpec.SplitIff` | kernel/buddy.c:118-185 | a block is split if and only if a live or reserved block lies properly inside it |
| `BuddySpec.Canonical` | kernel/buddy.c:118-185 | the free sets and both bit vectors are determined by the live and reserved blocks |
| `BuddySpec.Partition` | kernel/buddy.c:118-185 | every smallest block lies in exactly one live, free or reserved block |
| `BuddySpec.SearchComplete` | kernel/buddy.c:126-131 | a list of size k or more is not empty if and only if an aligned block of size k is wholly unoccupied |
| `BuddySpec.SizeFound` | kernel/buddy.c:150-157 | below a live block's own size, size()'s condition does not hold yet |
| `BuddySpec.LiveBelowTop` | kernel/buddy.c:150-157 | at its own size it does, below the top of the table |
| `BuddySpec.SplitDownInv` | kernel/buddy.c:136-143 | splitting a taken block down to a size keeps the invariant and leaves the leftmost block live |
| `BuddySpec.FreeUpInv` | kernel/buddy.c:161-185 | freeing with merging keeps the invariant: no two buddies are both free |
| `BuddySpec.RunInv` | kernel/buddy.c:118-185 | so does every run of malloc and free |
| `BuddySpec.FreeingRestores` | kernel/buddy.c:118-185 | a run that ends with the live set it began with ends with the same free sets and bits |
| `BuddyInit.SizeComplete` | kernel/buddy.c:225-253 | the one or two pairs visited per size yield all free blocks of that size, none twice unless the pairs coincide |
| `BuddyInit.FinalInv` | kernel/buddy.c:242-253 | bd_initfree pushes free blocks that tile the range exactly, with no free buddy pair |
| `BuddyInit.TotalCondition` | kernel/buddy.c:329-332 | the total agrees with the range if and only if no size visits one pair twice |
| `BuddyInit.QuarterSuffices` | kernel/buddy.c:329-332 | none does if the metadata takes at most a quarter of the heap |
| `Buddy.IndexOfAddr` | kernel/buddy.c:106-115 | blk_index is inverse to addr, at a block's size and at the next |
| `Buddy.AddrInjective` | kernel/buddy.c:112-115 | blocks of one size have different addresses |
| `Buddy.MarkIndices` | kernel/buddy.c:188-192 | blk_index and blk_index_next round a leaf boundary down and up to a block of any size |
| `Buddy.PanicCondition` | kernel/buddy.c:276-333 | for a range [start, end) within the tables, the panic on the total is met if and only if some size visits one pair twice |
| `Buddy.PanicExample` | kernel/buddy.c:276-333 | a range [start, end) for which it is |
| `Buddy.FirstK` | kernel/buddy.c:94-103 | the smallest size that holds n bytes |
| `Buddy.ComputeLog2` | kernel/buddy.c:194-201 | the floor of the binary logarithm |
| `Buddy.Allocator.Mark` | kernel/buddy.c:204-221 | exactly the blocks that touch the range are marked, at every size |
| `Buddy.Allocator.InitFreePair` | kernel/buddy.c:225-237 | the free one of a pair is pushed and its size returned; nothing if none is free |
| `Buddy.Allocator.InitFree` | kernel/buddy.c:242-253 | the free blocks of all sizes are pushed and the total is the one the specification counts |
| `Buddy.Allocator.Init` | kernel/buddy.c:276-333 | the panic is not met; the allocator is valid, nothing is live, and exactly the metadata and what is past the end are reserved |
| `Buddy.Allocator.Malloc` | kernel/buddy.c:118-147 | fails if and only if no aligned block of a fitting size is unoccupied; else a new live block of the smallest fitting size, the left end of a free block that no free block of that size or more is smaller than and that was first on its list; the halves cut off, and no others, are newly free |
| `Buddy.Allocator.Size` | kernel/buddy.c:150-157 | the size a live pointer was allocated at, found within the table |
| `Buddy.Allocator.Free` | kernel/buddy.c:161-185 | exactly that block is no longer live, with all merging done |
| `Sv39.IndicesInjective` | kernel/riscv.h:374-376 | the three indices determine the virtual page |
| `Sv39.PrefixStep` | kernel/riscv.h:374-376 | an index at one level selects the prefix of the next |
| `Sv39.PteRoundTrip` | kernel/riscv.h:367-371 | entries decode to the page and flags they encode |
| `Sv39.PteDecode` | kernel/riscv.h:360-371 | every entry is made of its page and flags, and its flag bits are those of its flags |
| `VmSpec.AllocWf` | kernel/kalloc.c:69-82 | taking a free page keeps the invariant and every translation |
| `VmSpec.ReleaseWf` | kernel/kalloc.c:47-63 | giving back a page held by the caller keeps the invariant and every translation |
| `VmSpec.LinkWf` | kernel/vm.c:95-99 | adding an empty table keeps the invariant and every translation |
| `VmSpec.MapWf` | kernel/vm.c:160-163 | writing an empty leaf entry keeps the invariant and changes that translation only |
| `VmSpec.DropWf` | kernel/vm.c:279-294 | releasing an empty table keeps the invariant, but for the slot above it, and every translation |
| `VmSpec.UserReach` | kernel/vm.c:109-126 | an entry with V and U leads to a data page that belongs to that place of that address space, never to a table or a free page |
| `VmEffects.RolledBack` | kernel/vm.c:241-251 | populating a range, growing the tree and removing the range again changes no translation, no user memory and no page in use |
| `VmEffects.AllGone` | kernel/vm.c:299-304 | unmapping all memory and freeing all tables frees exactly the pages of that address space |
| `VmCount.ThreePerPage` | kernel/vm.c:86-103 | three free pages for each page to be added are enough |
| `Vm.Memory.constructor` | kernel/kalloc.c:27-40 | all pages of the range are on the free list, once each |
| `Vm.Memory.Kalloc` | kernel/kalloc.c:69-82 | the first free page, or none just if there is none |
| `Vm.Memory.Kfree` | kernel/kalloc.c:47-63 | the page is at the front of the free list |
| `Vm.Memory.Walk` | kernel/vm.c:86-103 | the slot for the page if its tables exist; with alloc, the missing tables are added, one free page for each, or the free list is too short for them; no translation, memory or other page changes |
| `Vm.Memory.Mappages` | kernel/vm.c:144-172 | exactly the translations named are made if the free list has a page for each table missing, else a prefix of them with memory exhausted; no remap panic on unmapped pages |
| `Vm.Memory.Uvmcreate` | kernel/vm.c:204-212 | a new address space with nothing mapped, and no other changed |
| `Vm.Memory.Uvmunmap` | kernel/vm.c:178-199 | exactly the translations named are gone, and exactly their pages are free if asked; no panic on mapped pages |
| `Vm.Memory.Uvmalloc` | kernel/vm.c:233-256 | succeeds if and only if the free list has a page for each new page and each table missing on their paths, and takes just those; every new page is zeroed memory of its own; on failure only empty tables may have been added |
| `Vm.Memory.Uvmdealloc` | kernel/vm.c:263-274 | exactly the pages past the new size are gone |
| `Vm.Memory.Uvmcopy` | kernel/vm.c:313-340 | succeeds if and only if the free list has a page for each page copied and each table missing on their paths; the copy has the same bytes and flags page by page, on pages of its own; on failure only empty tables may have been added |
| `Vm.Memory.Freewalk` | kernel/vm.c:279-294 | the table and all tables below are free, each once; no other page changes |
| `Vm.Memory.Uvmfree` | kernel/vm.c:299-304 | every page of the address space, table or memory, is free, and nothing else has changed |
| `Vm.Memory.Walkaddr` | kernel/vm.c:109-126 | the page of the user memory at that place, if user code may reach it |
| `Vm.Memory.Copyin` | kernel/vm.c:389-408 | succeeds if and only if every page is readable, with the bytes user code would read: a function of those alone |
| `Vm.Memory.Copyout` | kernel/vm.c:359-383 | of all user memory of all address spaces exactly the bytes named change, up to the first page that may not be written |
| `Vm.NeverShared` | kernel/vm.c:313-340 | no page is accessible to user code at two places |
| `VmFork.ForkAgrees` | kernel/vm.c:313-340 | after uvmcopy parent and child agree below sz on bytes, flags and what may be read and written |
| `VmFork.OwnWritesOnly` | kernel/vm.c:359-383 | over any run of writes, each address space reads its old memory under its own writes |
| `VmFork.ForkIsolates` | kernel/vm.c:313-383 | after a fork, over any interleaving of writes by both and by others, each reads the parent's old memory under its own writes |
| `VmFork.CopiedKept` | kernel/vm.c:359-408 | what copyin returns, success and bytes, is not changed by any writes of others |
| `VmFork.ReadsBack` | kernel/vm.c:359-408 | what a process wrote last it reads back, whatever others write |
| `FsSpec.WordSet` | kernel/fs.c:407-414 | writing one word of a block changes that word and no other |
| `FsSpec.GrabWf` | kernel/fs.c:66-88 | taking a free block keeps the invariant and every address |
| `FsSpec.UngrabWf` | kernel/fs.c:92-105 | freeing a block keeps the invariant, and its bit was set |
| `FsSpec.PutIndirectWf` | kernel/fs.c:398-405 | a fresh indirect block gives the file no address it did not have |
| `FsSpec.PutEntryWf` | kernel/fs.c:407-414 | an entry of an indirect block adds that address only |
| `FsEffects.BitMeaning` | kernel/fs.c:65-105 | a bit is set if and only if its block is metadata or some direct, indirect or indirect-entry address names it |
| `FsEffects.OneHolder` | kernel/fs.c:382-453 | no two addresses, in one inode or in two, name the same block |
| `FsEffects.NoneHeldKept` | kernel/fs.c:426-539 | after a write or a truncation no block is in use without an address |
| `FsEffects.PatchByte` | kernel/fs.c:518-528 | writing inside one block changes those bytes of that file only: no block holds bytes of two places |
| `FsEffects.WroteContents` | kernel/fs.c:506-539 | the change is an overwrite of one byte sequence and of no other |
| `FsEffects.ChunkFits` | kernel/file.c:149-155 | what a chunk may log is within MAXOPBLOCKS for every offset |
| `Fs.FileSystem.constructor` | mkfs/mkfs.c:236-250 | the empty layout: metadata in use, everything else free |
| `Fs.FileSystem.Balloc` | kernel/fs.c:66-88 | the first free block, zeroed, with its bit set; 0 if and only if none is free |
| `Fs.FileSystem.Bfree` | kernel/fs.c:92-105 | that bit is cleared; the panic is not met |
| `Fs.FileSystem.Bmap` | kernel/fs.c:383-421 | the block's address, its own if new and the first free one; 0 only with no block free; no byte or address of any file changes otherwise; what is logged is told exactly |
| `Fs.FileSystem.Itrunc` | kernel/fs.c:426-453 | exactly the file's blocks are freed, also those past its size and an indirect block without entries; logged are exactly their bit map blocks and the inode's |
| `Fs.FileSystem.Readi` | kernel/fs.c:472-496 | the bytes of the file from off on, up to its end or off + n; none if off is past the end or off + n wraps; fails if and only if they do not fit where they go; nothing is allocated |
| `Fs.FileSystem.Writei` | kernel/fs.c:506-539 | the file is overwritten by exactly the prefix whose length is returned; with a readable source it is whole if and only if there are as many free blocks as it must add, and it stops only where no block is to be had or the source ends; other files are untouched; what is logged is told exactly and is within the budget |
| `Fs.FileSystem.Filewrite` | kernel/file.c:135-181 | the file is overwritten at the offset by what was written; all of it is if and only if the offset is within the file, the source can be read, the end is within MAXFILE blocks and there are as many free blocks as it must add; else the chunk it stopped in and the cause are told; every transaction logs at most MAXOPBLOCKS blocks |
| `FsLog.WithinBudget` | kernel/fs.c:506-539 | what a write logs is no more than its blocks, a bit map block for each it may add, the indirect block with its own, and the inode's |
| `FsLog.BudgetReached` | kernel/fs.c:506-539 | it is as many if and only if all blocks but the one the write begins inside are missing, an indirect block is needed, and the first free blocks have their bits in different bit map blocks |
| `FsLog.LimitReached` | kernel/file.c:149-155 | a chunk logs MAXOPBLOCKS blocks if and only if that is so and it spans four blocks |
| `FsLog.TruncFits` | kernel/fs.c:426-453 | a truncation logs at most one block more than the bit map has, so within MAXOPBLOCKS on a disk of up to nine bit map blocks |
| `FsRoom.WholeIff` | kernel/fs.c:506-539 | a write with a readable source is whole if and only if the free blocks are as many as the blocks missing in its range and the indirect block, if needed and missing |
| `FsRoom.AllIff` | kernel/file.c:149-181 | a write in chunks that stops only for want of blocks, source or room in the file is whole if and only if none of these wants |
| `FsLimit.ExampleOk` | mkfs/mkfs.c:93-103 | a disk of four bit map groups with four free blocks, one in each, meets the invariant |
| `FsLimit.ExampleWorst` | kernel/file.c:149-155 | the largest chunk, from inside block 11 of a file on it, is the worst case |
| `FsLimit.LimitExample` | kernel/file.c:149-155 | writei of that chunk writes all of it and logs MAXOPBLOCKS blocks |
| `ProcsMoves.MoveInv` | kernel/proc.c:548-592 | a thread that takes or releases a lock keeps the invariant, if it leaves no wakeup undone |
| `ProcsData.ReparentInv` | kernel/proc.c:331-341 | giving a child to init under wait_lock, with init about to be woken, keeps the invariant |
| `ProcsData.ChangeInv` | kernel/proc.c:372-380 | going to sleep, yielding and becoming a zombie keep the invariant |
| `ProcsRuns.StepInv` | kernel/proc.c:280-592 | every step of every CPU keeps the invariant |
| `ProcsRuns.RunInv` | kernel/proc.c:280-592 | so does every interleaving |
| `ProcsRuns.NoLostWakeup` | kernel/sleeplock.c:22-41 | while its spin lock is free, no process sleeps on a sleep lock that is not locked, nor in begin_op when its condition does not hold |
| `ProcsRuns.NoLostExit` | kernel/proc.c:347-435 | while wait_lock is free, no process sleeps in wait with a zombie child |
| `ProcsRuns.ParentsLive` | kernel/proc.c:280-435 | no process has a parent that is a zombie or an unused slot |
| `ProcsRuns.CpuExclusive` | kernel/proc.c:445-519 | whenever p->lock is free, p is RUNNING if and only if some CPU's proc is p, and then just one's is |
| `ProcsRuns.SchedChecks` | kernel/proc.c:491-508 | sched is reached with p->lock held, no other lock held and p not RUNNING |
| `ProcsProgress.DispatchIff` | kernel/proc.c:445-481 | a CPU that scans with the processes' locks free next runs p if and only if p is the first RUNNABLE process from there on, going round the table; then p is RUNNING, CPU and process know each other, and nothing else has changed but that the CPU holds p's lock |
| `ProcsProgress.NeverRuns` | kernel/proc.c:456-476 | with no process RUNNABLE it goes on scanning, and nothing changes but where it is and the one lock it holds to look |
| `ProcsCalls.YieldRun` | kernel/proc.c:512-519 | yield makes the process RUNNABLE and gives its CPU to the scan behind it |
| `ProcsCalls.AcquireRun` | kernel/sleeplock.c:22-31 | acquiresleep takes a free lock and sleeps on a locked one, with the spin lock released |
| `ProcsCalls.ReleaseRun` | kernel/sleeplock.c:33-41 | releasesleep frees the lock and makes RUNNABLE exactly the processes that sleep on it |
| `ProcsCalls.WakeAll` | kernel/proc.c:579-592 | wakeup makes RUNNABLE exactly the processes that sleep on the channel, but for the caller |
| `ProcsCalls.FallAsleep` | kernel/proc.c:548-575 | sleep releases the guard and leaves the process asleep on the channel, off its CPU, with no lock of its own held |
| `ProcsCalls.ForkRun` | kernel/proc.c:280-326 | fork into a free slot leaves a RUNNABLE child of the caller and no lock held |
| `ProcsCalls.GiveAll` | kernel/proc.c:331-341 | reparent gives exactly the children of the process to init, and wakes init if there are any |
| `ProcsCalls.ExitRun` | kernel/proc.c:347-386 | exit leaves a zombie, its children init's, and its parent awake if it slept in wait |
| `ProcsCalls.WaitReaps` | kernel/proc.c:391-435 | wait with a zombie child frees the slot of the first one, and nothing else |
| `ProcsCalls.WaitRun` | kernel/proc.c:391-435 | wait with no zombie child sleeps if there is a child, and otherwise returns with nothing changed |
| `ProcsCalls.KillRun` | kernel/proc.c:598-616 | kill makes a sleeping process RUNNABLE and changes no other state |
| `ProcsTurns.FamilyRun` | kernel/proc.c:280-481 | from every boot state with two slots, each CPU has a run to a state where process 1 is a zombie child of init, and from there one to where init has reaped it in wait and the slot is free |
| `ProcsTurns.Turn` | kernel/proc.c:445-519 | the first RUNNABLE process, wherever its thread is, has a turn that ends with its CPU scanning behind it, no lock held, and every other RUNNABLE process still so |
| `ProcsTurns.Progress` | kernel/proc.c:445-519 | from every reachable state without a held lock a CPU that scans has a run of its own to a state where it runs p, for every p that is RUNNABLE |
| `ProcsTurns.NotUndisturbed` | kernel/sleeplock.c:22-31 | there need be none that leaves the others' states alone: of two processes woken on a lock that is still locked, the second is RUNNING only when the first sleeps again |
| `VdiskSteps.FillInv` | kernel/virtio_disk.c:239-274 | a request on three free descriptors keeps the invariant, and its ring entry overwrites none in use |
| `VdiskSteps.TakeInv` | kernel/virtio_disk.c:272-283 | the entry the device takes is the oldest request not taken |
| `VdiskSteps.PerformInv` | kernel/virtio_disk.c:239-266 | the chain the device follows names the buffer and the status byte of its own request |
| `VdiskSteps.SeeInv` | kernel/virtio_disk.c:311-325 | the entry the interrupt handler looks at is of a request done with status 0, whose buffer still waits |
| `VdiskSteps.FinishInv` | kernel/virtio_disk.c:284-291 | the chain freed is three different descriptors in use |
| `VdiskSteps.IndexTests` | kernel/virtio_disk.c:311-311 | comparing 16-bit indices tells whether the ring between them is empty, across wrap-around |
| `VdiskSteps.ExactlyOnce` | kernel/virtio_disk.c:216-327 | over every run each request is performed once, as asked, on its own buffer, before it ends |
| `VdiskData.EndedMoved` | kernel/virtio_disk.c:216-292 | over every run, when a request may end, a read has in its buffer what the disk held when it was performed, and a write has put on the disk what is in its buffer, which has not changed since |
| `VdiskSteps.Chains` | kernel/virtio_disk.c:157-213 | over every run a descriptor is free or in the chain of three of just one request |
| `VdiskSteps.NoOverrun` | kernel/virtio_disk.c:272-325 | over every run neither ring holds more than NUM entries in use, and both sides read the oldest |
| `Vdisk.VirtioDisk.AllocDesc` | kernel/virtio_disk.c:157-166 | the first free descriptor, or -1 if and only if none is free |
| `Vdisk.VirtioDisk.FreeChain` | kernel/virtio_disk.c:186-197 | exactly the three of the chain are free; the panics are not met |
| `Vdisk.VirtioDisk.Alloc3Desc` | kernel/virtio_disk.c:201-213 | three different free descriptors, or none with fewer than three free and nothing changed |
| `Vdisk.VirtioDisk.Submit` | kernel/virtio_disk.c:216-281 | the request is in the available ring, or nothing has changed and fewer than three descriptors are free |
| `Vdisk.VirtioDisk.Intr` | kernel/virtio_disk.c:295-327 | all requests completed so far are marked as done, each once |
| `Vdisk.VirtioDisk.Conclude` | kernel/virtio_disk.c:288-291 | the request is gone and its three descriptors are free |
| `UmallocSpec.OneBlock` | user/umalloc.c:24-90 | no unit is in two blocks |
| `UmallocSpec.FreedOk` | user/umalloc.c:33-42 | freeing with both mergings keeps the invariant: no two free blocks touch, no unit is lost |
| `UmallocSpec.TakenOk` | user/umalloc.c:75-82 | cutting an allocation off a free block keeps the invariant |
| `UmallocSpec.GrownIff` | user/umalloc.c:54-58 | taking in units from the kernel keeps the invariant if and only if they are not in use yet |
| `UmallocSpec.SoundIff` | user/umalloc.c:47-58 | the allocator's units stay within what sbrk gave if and only if the number of bytes asked for is below 2^31 |
| `UmallocSpec.TouchIsNext` | user/umalloc.c:33-33 | the code's comparison with the next block on the list finds every free block above that is touched |
| `Umalloc.SearchStep` | user/umalloc.c:30-32 | the loop of free stops at the block's place in address order and nowhere else |
| `Umalloc.FreeLinks` | user/umalloc.c:33-42 | the link and size writes of free leave a ring in address order of exactly the free blocks |
| `Umalloc.Heap.FindPlace` | user/umalloc.c:30-32 | the search ends, at the free block or base just below |
| `Umalloc.Heap.Free` | user/umalloc.c:25-44 | exactly that block is no longer allocated; units are conserved |
| `Umalloc.Heap.Morecore` | user/umalloc.c:47-61 | the units sbrk gave are a free block, merged with those it touches, or sbrk refused and nothing changed; all its units were given if and only if the argument of sbrk fits an int |
| `Umalloc.Heap.Malloc` | user/umalloc.c:64-90 | the scan ends; it fails if and only if no free block fits and sbrk refuses; else a new block that holds the bytes asked for and less than one unit more, the tail of the first fitting free block from freep on, in address order and round the ring, where freep is left before it; sbrk is used only if no block fitted; its units were given by the kernel unless sbrk was asked for 2^31 bytes or more |
| `Umalloc.HugeRequest` | user/umalloc.c:64-90 | malloc(0xFFFFFFFF) hands out 2^28 + 1 units of which the kernel gave one; what it gives next lies inside them and breaks the books |

## Left out

- The shell's parser (`user/sh.c`).
- Directories, path names and link counts (`kernel/fs.c`, `kernel/sysfile.c`); inode allocation and the inode cache.
- Pipes, the console, exec, traps, UART, PLIC, assembly, device probing and the user programs.
- Spin lock internals and memory ordering; interrupts as such (noff, intena).
- What kill achieves besides waking a sleeper: a process may be killed after it has looked and before it sleeps.
- uvmclear, uvmfirst, copyinstr and the building of the kernel's own page table.
- File descriptors, reference counts of inodes and what fork copies besides state and parent.
- Bio.Bcache.Get: models one critical section at a time on one device; the spin lock and the sleep locks of the cache are not part of it.
- Bio.Bcache.Brelse: asks that a buffer released for the last time is not dirty, as the callers see to it.
- Log.LogState.Commit: runs without other processes in between; it asks that no block of the transaction is held, where the code waits for the holder.
- Log.LogState.Brelse: asks that what was changed has been logged, as the callers see to it.
- Log.LogState.LogWrite: asks that an operation logs no more than MAXOPBLOCKS blocks, which is the file system's promise.
- Log.LogState.ReadHead: asks for a header count within LOGSIZE, which the code does not look at.
- Buddy.Allocator.Init: asks for a range in Buddy.Suitable: on the others in Buddy.Ranged it panics, and on the rest block numbers leave the tables; the width of int is not part of it.
- Buddy.Allocator.Free: looks at the buddy's bit before it clears the block's own, where the code does the converse; the two do not interfere. It asks for a live pointer.
- Buddy.Allocator.Size: asks for a live pointer.
- Vm.Memory.Kalloc: the free list is a sequence; its links inside the free pages are not modelled.
- Vm.Memory.Mappages: asks that the pages are not mapped and that PTE_U goes with the caller's own pages only.
- Vm.Memory.Uvmunmap: asks that the mappings exist, as the source's comment does.
- Vm.Memory.Walk: asks for an address below MAXVA, since the code panics otherwise.
- Vm.Memory.Uvmalloc: asks for a new size within MAXVA and for pages not mapped yet, since walk and mappages panic otherwise.
- Vm.Memory.Uvmdealloc: asks that the pages to go are user memory, since uvmunmap panics otherwise.
- Vm.Memory.Uvmcopy: asks that the source range is user memory and the target range is not mapped, since the code panics otherwise.
- Vm.Memory.Freewalk: asks that nothing is mapped, since the code panics on a leaf.
- Vm.Memory.Uvmfree: asks that user memory is exactly the pages below sz.
- Fs.FileSystem.Bmap: asks for a block number below MAXFILE, since the code panics otherwise.
- Fs.FileSystem.Writei: a failed copy is taken to leave the block as it was, though the code may leave part of it in the buffer, not logged.
- FsLimit.LimitExample: starts from a given disk; that calls of the file system lead to it is not shown.
- VdiskSteps.PerformInv: the device never reports an error.
- VdiskSteps.ExactlyOnce: the sleeping and waking of driver threads is not part of it.
- ProcsRuns.StepInv: fork may look at any slot of the table, where allocproc goes through them in order; memory, files and pids of a process are not part of it.
- ProcsTurns.Progress: says that there is such a run, not that every fair one comes to p; it asks that no lock is held, and a process on another CPU may hold one.
- Umalloc.Heap.Free: asks for an allocated block.
- Umalloc.Heap.Malloc: what a shrinking sbrk does to pages is not part of it, only to the end of memory.
