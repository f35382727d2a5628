# SaeOS model

A Dafny model of the parts of SaeOS that are hardest to get right, with proofs of what they
promise: physical frames and the buddy lists, user page tables and copy-on-write, the user memory
map and the system calls on it, the kernel's own page tables, the static heap, process exit and
`wait4`, the in-memory file system, the sound path, and the video format of `scripts/bav.py`.
Code that changes things in place is modelled by classes and loops proved against specifications;
protocols are state machines over their critical sections.

| files | part of the system | main results |
|---|---|---|
| Dyadic, FreeBlocks, BuddyLists, BuddySoundness, BuddyValidation, BuddyAllocator | frame allocator | the lists hold exactly the maximal free blocks of the bitmap after every operation, whatever owners write into their frames, and only free frames are written |
| PageLeaves, PageTables, HardwareWalk, TableCounts, AddressSpaces, MemoryMap, UserMemory | user memory | radix tables stand for a map from pages to leaves, which the processor's walk finds; tables and memory map agree after every system call, failed ones included; no frame is lost |
| CopyOnWrite, CopyOnWriteProofs, EagerFork | fork | every run of forks, faults, stores, unmaps and exits shows what eager copying would show, with exact reference counts |
| PageEntries, KernelMap, KernelTables, KernelBoot | kernel page tables | `map_range` with large leaves translates as page by page mapping would, if and only if nothing obstructs it; the tables built at boot lead every page where the last mapping says, with the attributes of its kind of memory |
| HeapRegions, StaticHeap | kernel heap | free list, class lists and live blocks tile the heap; blocks never overlap |
| Processes, ExitProtocol, ExitProtocolTasks, LostWakeups, WakeDelivery, WaitResults, Reaping, SpaceLedger | exit, reaping, `wait4`, `exec` | over every interleaving from boot: no lost wake-up, a `wait4` that slept returns a child with the status it gave to `exit`, consistent families, each address space released exactly once |
| RamTree, RamTreeProofs, RamFs, RamFiles, RamVolume, RamLocks | file system | the directories stay one tree; a file and its bytes live exactly as long as a name or a handle; when renaming can deadlock |
| Resampling, SoundFormat, SoundRing, SoundCard | sound | output is one reference stream however the input is cut up, and the card plays it in order, with silence elsewhere |
| BavFormat, BavLayout, Bav | video files | decoding what was encoded gives the frames back, from files that spend no bytes on rows that did not change |

## Where the code falls short

Eight properties do not hold of the code as it is. For each there is a concrete failing run or state
and the exact condition under which the property holds.

- `isolate` follows whatever bytes look like a tag, so a stale tag inside a larger free block
  sends it to a list the frame is not on (`StaleTagMisleads`; `StaleTagReached` leads there by an
  owner's write and a release); it is right exactly when there is no such tag (`IsolateExact`).
- `validate` accepts two free buddies listed apart (`UnmergedIsAccepted`); an accepted allocator
  lists exactly the maximal free blocks if and only if each listed block is maximal
  (`AcceptedIsSound`).
- `brk` rebuilds the heap region as read-write without touching pages that stay mapped. After an
  `mprotect` inside the heap the memory map and the page tables then disagree
  (`BrkAfterMprotect`); they agree exactly when the part of the heap that is kept was read-write
  throughout (`BrkAgreement`, and the last clause of `OwnedSpace.Brk`).
- A fork cut off at a saturated reference count, or because the heap has no room for the child's
  list of devices, drops the child before giving it its list of pages: the references taken so far
  belong to nobody, and over any later run those frames stay allocated for good (`LostForGood`).
  `ForkThatLeaks` is such a run from boot. `Memory.ForkCow` says exactly when it happens, by what
  there is before the call: some page can be shared, the frames suffice for the tables up to the
  first saturated count, and there is such a count or the list does not fit (`Leaks`). The other
  failures of a fork give everything back.
- `wake_all` stops at a queue entry that is not blocked (`StaleEntryStopsWakeAll`); it wakes
  everybody exactly when nobody blocked is queued behind such an entry (`WakeAllComplete`). In the
  exit protocol no such entry arises.
- `rename` does not check again, under the locks, that the target directory is still alive
  (`RenameIntoRemoved`); the tree survives exactly when it is (`RenameMeanwhile`).
- `rename` locks the directory it replaces last, even when that lies above the source directory, whose
  map it already holds: it can deadlock with removals (`DeadlockHappens`), and does not exactly when
  the replaced directory is not above the source directory (`RenameDeadlocks`).
- A 2 MiB leaf mapped under a 1 GiB leaf is written into the memory the large leaf maps, not into
  a table (`ReservedThenUsable`); `BigUnderGiant` and `MapRange` say exactly when the range still
  translates as asked. The tables built at boot are never affected (`UniformUnobstructed`).

## Model

| member | source | states |
|---|---|---|
| `Dyadic.BuddyIsSibling` | kernel/src/mm/buddy.rs:324-340 | flipping one bit of an aligned frame number gives the other half of the enclosing block, and the lower half is where that block starts |
| `FreeBlocks.MaximalMeet` | kernel/src/mm/buddy.rs:123-139 | two maximal free blocks that share a frame are the same block |
| `BuddySoundness.BuddyTest` | kernel/src/mm/buddy.rs:342-352 | while merging, the head test answers exactly whether the two halves together are free, whatever bytes the frames contain |
| `BuddySoundness.BlockOrder` | kernel/src/mm/buddy.rs:393-403 | the order found is the largest whose aligned block fits between the frame and the end |
| `BuddySoundness.SameBitmapSameLists` | kernel/src/mm/buddy.rs:123-139 | two sound allocators over one bitmap, whatever their histories, list the same blocks with the same counts, so stepwise splitting and merging equals a fresh build |
| `BuddySoundness.IsolateExact` | kernel/src/mm/buddy.rs:246-270 | `isolate` goes to the block that holds the frame if and only if no stale tag of a smaller order is in the way |
| `BuddySoundness.StaleTagMisleads` | kernel/src/mm/buddy.rs:246-270 | in every state with a frame inside a larger free block, bytes there that look like an order-0 tag keep the lists sound but send `isolate` to a list without the frame |
| `BuddyAllocator.StaleTagReached` | kernel/src/mm/buddy.rs:179-213 | a run that ends with such a tag: an owner writes it, then releases two frames that become one block |
| `BuddySoundness.TrustedHasNoStaleTag` | kernel/src/mm/buddy.rs:246-270 | if every free frame was clear of tags when it was given back, there is no stale tag |
| `BuddyAllocator.Allocator.constructor` | kernel/src/mm/buddy.rs:123-139 | any bitmap over any memory contents gets lists of exactly its maximal free blocks |
| `BuddyAllocator.Allocator.Build` | kernel/src/mm/buddy.rs:123-139 | whatever the lists were before, they become those of the bitmap |
| `BuddyAllocator.Allocator.InsertRun` | kernel/src/mm/buddy.rs:316-322 | carving a run into the largest fitting aligned blocks lists exactly the maximal blocks up to its end |
| `BuddyAllocator.Allocator.CoalesceAndPush` | kernel/src/mm/buddy.rs:324-340 | adding one free block, merged as far as its buddies are free, makes the lists exact for the whole bitmap |
| `BuddyAllocator.Allocator.Push` | kernel/src/mm/buddy.rs:354-371 | the doubly linked lists, heads and counts then list one more block and no other change; only that frame and frames already listed are written |
| `BuddyAllocator.Allocator.Unlink` | kernel/src/mm/buddy.rs:373-389 | the inverse of a push: one block leaves lists, links and counts; only it and its neighbours are written |
| `BuddyAllocator.Allocator.Split` | kernel/src/mm/buddy.rs:143-176 | a listed block cut down to an order leaves the lists exact for all frames but the piece in hand |
| `BuddyAllocator.Allocator.Allocate` | kernel/src/mm/buddy.rs:143-176 | it fails, changing nothing, exactly when no aligned block of the order is free in the zones; otherwise it marks just one such block, taken from the first zone and smallest order that has one; no frame in use is written |
| `BuddyAllocator.Allocator.Release` | kernel/src/mm/buddy.rs:179-213 | each error exactly in its case with nothing changed; otherwise exactly that block becomes free and the lists are exact again; no frame still in use is written |
| `BuddyAllocator.Allocator.InsertReservedRange` | kernel/src/mm/buddy.rs:217-241 | exactly the reserved frames of the range become free, clipped to memory, and the lists stay exact |
| `BuddyAllocator.Allocator.Isolate` | kernel/src/mm/buddy.rs:246-270 | succeeds exactly on free frames; the lists then hold the maximal blocks of all other free frames |
| `BuddyAllocator.Allocator.FreeFrames` | kernel/src/mm/buddy.rs:108-113 | the sum of counts times block sizes is the number of free frames of the bitmap |
| `BuddyAllocator.Allocator.LargestOrder` | kernel/src/mm/buddy.rs:115-119 | the largest order of any free aligned block, or none exactly if nothing is free |
| `BuddyAllocator.Allocator.Validate` | kernel/src/mm/buddy.rs:273-314 | on any state, however damaged, it finds no fault if and only if some well linked, correctly counted lists of free blocks have as many frames as are free; a valid state passes |
| `BuddyValidation.AcceptedIsSound` | kernel/src/mm/buddy.rs:273-314 | an accepted state lists exactly the maximal free blocks if and only if every listed block is maximal |
| `BuddyValidation.NoneMissing` | kernel/src/mm/buddy.rs:273-314 | distinct maximal blocks with as many frames as are free leave no maximal block out |
| `BuddyValidation.UnmergedIsAccepted` | kernel/src/mm/buddy.rs:273-314 | a state that is accepted although two free buddies are listed apart |
| `BuddyAllocator.Allocator.OwnerWrites` | kernel/src/mm/buddy.rs:342-352 | arbitrary writes to frames that are not free keep the lists exact |
| `BuddyAllocator.Allocator.Claim` | kernel/src/mm/frame.rs:225-254 | the reserving loop takes exactly the free frames of the range, one at a time, and keeps the lists exact |
| `BuddyAllocator.Allocator.Scan` | kernel/src/mm/frame.rs:292-324 | the search from the cursor with wrap-around fails exactly when no aligned free block lies between the bounds, and takes just the one it finds |
| `BuddyAllocator.Allocator.AllocateWithin` | kernel/src/mm/frame.rs:255-290 | the list allocation with its give-back and search fails exactly when no aligned free block of the order lies between the physical bounds |
| `BuddyAllocator.Allocator.GiveBack` | kernel/src/mm/frame.rs:255-290 | releasing a block just allocated restores the bitmap |
| `PageTables.PathsDiffer` | kernel/src/mm/paging.rs:1541-1548 | different page numbers have different table indices |
| `PageTables.PathsOrdered` | kernel/src/mm/paging.rs:1541-1548 | one page lies below another exactly when its indices come first, the top level weighing most |
| `HardwareWalk.PathBits` | kernel/src/mm/paging.rs:1541-1548 | the four indices are bits 39 to 47, 30 to 38, 21 to 29 and 12 to 20 of the address |
| `HardwareWalk.SpaceFinds` | kernel/src/mm/paging.rs:687-711 | in any valid space a walk that takes nine bits of the address at each level finds the leaf of a page exactly when the page is mapped |
| `PageTables.NumbersCover` | kernel/src/mm/paging.rs:1541-1548 | every table path in use is some page's: the map from page numbers leaves no leaf of the tables out |
| `TableCounts.TablesExact` | kernel/src/mm/paging.rs:737-803 | the tables below the root are exactly those on the way to mapped pages |
| `TableCounts.MissingCounts` | kernel/src/mm/paging.rs:860-958 | the tables a new page has to make are exactly what it adds to the count of those its pages need |
| `PageTables.Space.constructor` | kernel/src/mm/paging.rs:313-331 | a new root maps nothing |
| `PageTables.Space.Map` | kernel/src/mm/paging.rs:860-958 | exactly one page is added, or every table is rolled back: already mapped if and only if it was, out of frames if and only if fewer are free than tables are missing |
| `PageTables.Space.Unmap` | kernel/src/mm/paging.rs:737-776 | exactly one page goes, tables left empty are freed, and what was mapped is returned; otherwise nothing changes |
| `PageTables.Space.TakeBack` | kernel/src/mm/paging.rs:927-958 | undoing a new table restores tables and pool as they were |
| `PageTables.Space.Lookup` | kernel/src/mm/paging.rs:687-711 | the walk finds a leaf exactly for mapped pages, and it is that page's |
| `PageTables.Space.Rewrite` | kernel/src/mm/paging.rs:503-539 | one mapped page's leaf is replaced and no other |
| `PageTables.Space.FreeTree` | kernel/src/mm/paging.rs:792-803 | exactly the table frames at and below the given one go back to the pool, each once |
| `PageTables.Space.Teardown` | kernel/src/mm/paging.rs:284-311 | dropping the space returns every table frame |
| `AddressSpaces.AddressSpace.MapOwned` | kernel/src/mm/paging.rs:368-390 | succeeds exactly when the page is free and the frames for page and missing tables suffice; all frames remain accounted for either way |
| `AddressSpaces.AddressSpace.MapDevice` | kernel/src/mm/paging.rs:392-409 | likewise for a device page, which takes no frame of its own |
| `AddressSpaces.MemoryTypes` | kernel/src/mm/paging.rs:541-563 | device pages stay write-combining and owned pages cached, whatever permissions are set |
| `AddressSpaces.AddressSpace.Unmap` | kernel/src/mm/paging.rs:411-454 | one page goes; an owned frame and the empty tables return to the pool, a device frame does not |
| `AddressSpaces.AddressSpace.SetFlags` | kernel/src/mm/paging.rs:541-563 | the access of one mapped page changes, what it leads to does not, and no frame moves |
| `CopyOnWrite.Memory.FreeFrame` | kernel/src/mm/frame.rs:572-590 | one reference goes; the frame is freed exactly with the last |
| `CopyOnWrite.Memory.Exit` | kernel/src/mm/paging.rs:284-311 | all tables are freed and each owned mapping gives back one reference |
| `CopyOnWrite.Memory.Unmap` | kernel/src/mm/paging.rs:411-454 | the page leaves tables and ownership list together, with one reference if it was owned |
| `CopyOnWrite.Memory.Protect` | kernel/src/mm/paging.rs:541-563 | a page that becomes writable while its frame is shared stays read-only and is marked copy-on-write, in the tables as in the model |
| `CopyOnWrite.Memory.ResolveCow` | kernel/src/mm/paging.rs:638-676 | not-cow and out-of-memory exactly in their cases with nothing changed; else the last user takes the frame back or a copy replaces it and one reference goes |
| `CopyOnWrite.Memory.ForkCow` | kernel/src/mm/paging.rs:571-636 | the child's tables hold exactly the shared leaves, or are freed again; which of success, out of frames and cut off it is follows from counts, frames and heap before the call, and references are lost if and only if it is cut off after sharing a page |
| `CopyOnWrite.Memory.ShareOne` | kernel/src/mm/paging.rs:571-636 | a writable page becomes read-only and copy-on-write in the parent before the reference is taken, which fails exactly at the saturated count |
| `CopyOnWrite.Memory.Unshare` | kernel/src/mm/paging.rs:571-636 | the failure exit gives back every reference the fork took; only the read-only marks stay |
| `CopyOnWriteProofs.StepKeepsInv` | kernel/src/mm/paging.rs:541-676 | every step keeps: counts equal the users of a frame plus kernel and lost references, allocated means counted, writable means used once |
| `CopyOnWriteProofs.WritableOnce` | kernel/src/mm/paging.rs:541-676 | an owned frame is hardware-writable through at most one page of one space |
| `CopyOnWriteProofs.ForkCutOffKeeps` | kernel/src/mm/paging.rs:571-636 | a fork cut off keeps the invariant, its references counted as lost |
| `EagerFork.StepSeen` | kernel/src/mm/paging.rs:541-676 | one step of the copy-on-write kernel is one step, or none, of a kernel whose fork copies every page, as seen by all processes |
| `EagerFork.RunsRefineEagerFork` | kernel/src/mm/paging.rs:541-676 | over every run from boot, processes see exactly a run of the eager kernel, and reference counts are exact at each point |
| `EagerFork.CutOffForkLeaks` | kernel/src/mm/paging.rs:571-636 | a cut-off fork loses one reference for every page ahead of the first saturated count, so none exactly when the first page is saturated already or there is none |
| `EagerFork.ForkThatLeaks` | kernel/src/mm/paging.rs:599-602 | from any boot state with a free frame and a device, a run of four steps that ends with a lost reference |
| `CopyOnWrite.EnoughFrames` | kernel/src/mm/paging.rs:571-636 | three frames a page always suffice; then references are lost exactly when the first page can be shared and a later one is saturated or the device list does not fit |
| `EagerFork.StepLoses` | kernel/src/mm/paging.rs:571-636 | no other step loses a reference and none ever comes back |
| `EagerFork.LostForGood` | kernel/src/mm/frame.rs:572-599 | over every run a frame with a lost reference stays allocated; without a cut-off fork no reference is lost |
| `MemoryMaps.FromLinux` | kernel/src/mm/vma.rs:65-83 | exactly the protection bits that are never both writable and executable are accepted, and which bit means what; each error in its case |
| `MemoryMaps.PageUp` | kernel/src/mm/vma.rs:171-173 | the next page boundary, or nothing exactly when it does not fit in 64 bits |
| `MemoryMaps.Piece` | kernel/src/mm/vma.rs:109-123 | a piece of a region backs each address with what the region did, device offset included |
| `MemoryMaps.MemoryMap.Insert` | kernel/src/mm/vma.rs:217-229 | each error in its case; otherwise the addresses of the region get it and no others change, in order |
| `MemoryMaps.MemoryMap.Remove` | kernel/src/mm/vma.rs:233-255 | exactly the range is gone, regions across its ends are cut, and the spans returned cover exactly what was mapped there |
| `MemoryMaps.RemovedExactly` | kernel/src/mm/vma.rs:233-255 | the removed spans contain an address if and only if it is in the range and was mapped |
| `MemoryMaps.MemoryMap.FindFree` | kernel/src/mm/vma.rs:259-276 | the highest free range of that length between break and top; none only if there is none |
| `MemoryMaps.MemoryMap.Place` | kernel/src/mm/vma.rs:312-360 | a fixed range at the hint, another at the hint if that is usable and free, else as high as it fits; succeeds exactly when there is such a place; a failed call changes nothing and the insertion after a removal cannot fail |
| `MemoryMaps.MemoryMap.Munmap` | kernel/src/mm/vma.rs:364-372 | succeeds exactly on an aligned start with a length that fits; then exactly the range is gone |
| `MemoryMaps.MemoryMap.FullyMapped` | kernel/src/mm/vma.rs:376-436 | the scan says yes exactly if every address of the range is mapped |
| `MemoryMaps.MemoryMap.Mprotect` | kernel/src/mm/vma.rs:376-436 | each error exactly in its case with nothing changed; otherwise every address keeps its backing and gets the protection, and none outside changes |
| `MemoryMaps.MemoryMap.SetBrk` | kernel/src/mm/vma.rs:441-487 | succeeds exactly when the new heap fits and meets no other region; the heap is then one read-write region up to the break |
| `UserMemory.OwnedSpace.UnmapSpan` | kernel/src/mm/user_memory.rs:36-44 | exactly the pages of the span go, unmapped ones skipped, and all frames are accounted for |
| `UserMemory.OwnedSpace.MapSpan` | kernel/src/mm/user_memory.rs:48-82 | all pages of the span or none; four free frames a page always suffice |
| `UserMemory.OwnedSpace.ProtectSpan` | kernel/src/mm/user_memory.rs:84-94 | succeeds exactly when every page is mapped, and then gives each the access |
| `UserMemory.OwnedSpace.Brk` | kernel/src/mm/user_memory.rs:104-127 | returns the break in force; moves only as the map allows, and does so when shrinking or with frames for the growth; an unmoved one leaves map and tables as they were; after a move they agree if and only if the part kept was read-write heap |
| `UserMemory.BrkAgreement` | kernel/src/mm/user_memory.rs:104-127 | for any map and tables that agree, moving the break keeps agreement if and only if the kept heap is intact |
| `UserMemory.BrkAfterMprotect` | kernel/src/mm/user_memory.rs:104-127 | a process that protects its first heap page and sets the same break again ends with map and tables in disagreement |
| `UserMemory.OwnedSpace.Mmap` | kernel/src/mm/user_memory.rs:129-151 | the result is the hint if fixed or usable and free, else the highest place that fits, and the region is there with the access asked for; with frames it succeeds exactly when there is a place; map and tables agree afterwards; a failure undoes everything, or leaves a hole at a fixed hint when frames ran out |
| `UserMemory.OwnedSpace.MmapDevice` | kernel/src/mm/user_memory.rs:154-212 | likewise for device memory, refused when misaligned or executable |
| `UserMemory.OwnedSpace.Munmap` | kernel/src/mm/user_memory.rs:214-221 | succeeds exactly for an aligned start and a length that fits, and exactly the range goes from map and tables together |
| `UserMemory.OwnedSpace.Mprotect` | kernel/src/mm/user_memory.rs:223-240 | succeeds exactly when the map allows it: the page tables never refuse half way |
| `PageEntries.GiantPart` | kernel/src/mm/paging.rs:83-116 | a part of a split 1 GiB word leads its pages where the word did, with the same attributes and cache type |
| `PageEntries.BigPart` | kernel/src/mm/paging.rs:83-116 | a part of a split 2 MiB word likewise, the PAT bit moved to its place in a 4 KiB word |
| `PageEntries.BigLeafLeads` | kernel/src/mm/paging.rs:1449-1490 | a 2 MiB word written for a physical page leads each of its pages to the matching one |
| `PageEntries.GiantLeafLeads` | kernel/src/mm/paging.rs:1449-1490 | a 1 GiB word likewise |
| `PageEntries.AddressNext` | kernel/src/mm/paging.rs:1334-1390 | physical page numbers count in steps of 4096 from address 0 |
| `KernelMap.SplitBigSame` | kernel/src/mm/paging.rs:1556-1634 | a page table made from the parts of a 2 MiB leaf translates every address as the leaf did |
| `KernelMap.SplitGiantSame` | kernel/src/mm/paging.rs:1556-1634 | a page directory made from the parts of a 1 GiB leaf likewise |
| `KernelTables.Tables.EnsureTables` | kernel/src/mm/paging.rs:1556-1634 | making and splitting tables down to a page changes no translation, and fails exactly when fewer frames are free than are needed |
| `KernelTables.Tables.MapPage` | kernel/src/mm/paging.rs:1556-1634 | exactly one page changes whatever leaf covered it; succeeds exactly when half, frames and the present word allow; a failure changes no translation |
| `KernelTables.Tables.MapPages` | kernel/src/mm/paging.rs:1407-1421 | every page of the range is mapped, and no other page ever changes; no table is lost, and with three free frames a page it succeeds |
| `KernelTables.Tables.MapGiant` | kernel/src/mm/paging.rs:1449-1490 | the gigabyte translates as page by page mapping would, through one leaf or through the finer tables already there |
| `KernelTables.Tables.MapBig` | kernel/src/mm/paging.rs:1449-1490 | the same for 2 MiB, except under a 1 GiB leaf, where it does if and only if the word found looks like a table entry or the leaf leads there already; the stray write lands in the memory the leaf maps |
| `KernelTables.BigUnderGiant` | kernel/src/mm/paging.rs:844-852 | the same condition for any tables before and after |
| `KernelTables.LooksRight` | kernel/src/mm/paging.rs:1469 | entries that point to tables are taken for such; unwritten memory and large leaves are not |
| `KernelTables.Tables.MapLeaf` | kernel/src/mm/paging.rs:1449-1490 | one step touches only its own pages and does its work unless it goes astray |
| `KernelTables.Tables.MapRange` | kernel/src/mm/paging.rs:1334-1390 | a call that succeeds leaves the range as page by page mapping would, if and only if no page of it was obstructed by a 1 GiB leaf; then its pages are uncached exactly for device memory and read-only, and executable, exactly for reserved memory; no other page changes, no table is lost, and with five free frames a page it succeeds |
| `KernelTables.UniformUnobstructed` | kernel/src/mm/paging.rs:1060-1145 | tables that have only mapped writable memory at the boot offsets obstruct nothing |
| `KernelBoot.Boot` | kernel/src/mm/paging.rs:1013-1157 | from empty tables, once all mappings of memory and sections succeed, every page leads where the last mapping that covers it says, with the attribute bits of that kind of memory or section, and no other page is mapped; given frames for every page it does succeed |
| `KernelBoot.Run` | kernel/src/mm/paging.rs:1060-1145 | one mapping made at boot does exactly its work on whatever the earlier ones left |
| `KernelTables.ReservedThenUsable` | kernel/src/mm/paging.rs:1334-1390 | a run of two successful calls after which the 2 MiB range is still read-only |
| `HeapRegions.AddedCount` | kernel/src/mm/heap.rs:140-183 | adding a region, merged left and right or not, adds its addresses and nothing else |
| `HeapRegions.AddedSorted` | kernel/src/mm/heap.rs:140-183 | the free list stays sorted with no two regions touching |
| `StaticHeap.Heap.constructor` | kernel/src/mm/heap.rs:130-138 | the whole heap is one free region, or empty exactly when the region is misaligned or too small |
| `StaticHeap.Heap.AddFreeRegion` | kernel/src/mm/heap.rs:140-183 | accepted exactly when aligned, large enough and clear of the list; only node words inside free memory are written |
| `StaticHeap.Heap.FindRegion` | kernel/src/mm/heap.rs:185-203 | the first region that fits leaves the list; none exactly when none fits |
| `StaticHeap.AllocFromIs` | kernel/src/mm/heap.rs:205-225 | the block goes to the lowest aligned address of the region exactly when it fits there and leaves on either side nothing or room for a node |
| `StaticHeap.TakenFits` | kernel/src/mm/heap.rs:227-248 | what is taken for a layout holds it, and can hold a free node when it comes back |
| `StaticHeap.SmallestClass` | kernel/src/mm/heap.rs:241-244 | a class serves an allocation, or a smaller one does, exactly if size and alignment fit it |
| `StaticHeap.SizeIsTight` | kernel/src/mm/heap.rs:227-239 | beyond size and node, less than one step of the alignment is wasted, and large blocks take whole pages |
| `StaticHeap.Heap.RefillSmall` | kernel/src/mm/heap.rs:250-284 | the run becomes one block in hand and a class list of the rest, or nothing changes, exactly when no region fits one block |
| `StaticHeap.Heap.Alloc` | kernel/src/mm/heap.rs:314-375 | a new live block of the size and alignment inside the heap and apart from all others, or zero with nothing changed, exactly when class list and free list cannot serve it |
| `StaticHeap.Heap.Dealloc` | kernel/src/mm/heap.rs:377-407 | the block leaves the live ones and its memory returns to the lists; the tiling is kept |
| `StaticHeap.Heap.OwnerWrites` | kernel/src/mm/heap.rs:314-375 | writes to live blocks disturb no list |
| `Processes.ProcessTable.Create` | kernel/src/process.rs:259-267 | a new record under an unused id |
| `Processes.ProcessTable.CreateChild` | kernel/src/process.rs:278-294 | the child is linked both ways, or nothing changes because there is no such parent |
| `Processes.ProcessTable.Exit` | kernel/src/process.rs:334-343 | the first status is kept; unknown and already exited processes are refused |
| `Processes.ProcessTable.RemoveThread` | kernel/src/process.rs:345-358 | one thread goes by swap-remove, and the answer says whether it was the last |
| `Processes.ProcessTable.ReapIfEmpty` | kernel/src/process.rs:360-387 | reaps exactly a parentless, threadless, exited, unreferenced process and queues its space once; links stay consistent if it has no children and is not PID 1 |
| `Processes.ProcessTable.WaitChild` | kernel/src/process.rs:389-413 | succeeds exactly for an exited, threadless child, returns its status and unlinks it both ways before reaping; a child that has not exited and anything else are refused with their own errors |
| `Processes.ProcessTable.ExitedChild` | kernel/src/process.rs:415-421 | the earliest child with a status and no thread, none exactly when there is no such child |
| `Processes.ProcessTable.ReparentChildren` | kernel/src/process.rs:430-448 | all children move to PID 1, keeping order and consistent links |
| `Processes.ProcessTable.TakeReleasedSpaces` | kernel/src/process.rs:450-452 | each queued space is handed out once |
| `Processes.ReparentedFamily` | kernel/src/process.rs:430-448 | reparenting keeps parents and children in agreement and leaves the process childless |
| `Processes.ReapedFamily` | kernel/src/process.rs:360-387 | in a consistent family reaping removes one record and changes no other |
| `ExitProtocol.WakeAllWakes` | kernel/src/task/scheduler.rs:459-466 | a queue of distinct blocked tasks is woken completely and left empty |
| `ExitProtocolTasks.BaseStep` | kernel/src/scheduler/lifecycle.rs:3-112 | every step of every task keeps families, task records, queues, the running task and ids consistent |
| `ExitProtocolTasks.BootBase` | kernel/src/scheduler/mod.rs:146-177 | the state at boot is consistent |
| `LostWakeups.WaitStep` | kernel/src/scheduler/wait.rs:47-97 | every step keeps a wake-up pending for each sleeper that could return |
| `LostWakeups.NoLostWakeup` | kernel/src/scheduler/lifecycle.rs:205-236 | in every run from boot a task blocked in `wait4` is queued and has the child it waits for; once that child, or any child if it waits for any, has a status and no thread, a wake-up is pending |
| `LostWakeups.FamilyAlways` | kernel/src/scheduler/lifecycle.rs:3-65 | in every run from boot parents and children agree, and a retired thread never waits for a reaper that sleeps on |
| `LostWakeups.StaleEntryStopsWakeAll` | kernel/src/task/scheduler.rs:444-466 | at the first entry that is not blocked the loop stops: those before it are ready, everybody else is as before |
| `LostWakeups.WakeAllComplete` | kernel/src/task/scheduler.rs:444-466 | everybody queued is awake afterwards if and only if nobody blocked was queued behind such an entry |
| `WakeDelivery.WakeDelivers` | kernel/src/scheduler/wait.rs:89-97 | in the protocol one `wake_all` makes every sleeper ready |
| `WakeDelivery.ReaperDelivers` | kernel/src/scheduler/mod.rs:257-274 | in any run in which the reaper takes the steps it owes, every task that was asleep is woken, whatever the others do in between |
| `WakeDelivery.WakeArrives` | kernel/src/scheduler/lifecycle.rs:205-236 | from boot on, a sleeper with such a child is woken by the next step of an exit, or once the reaper has taken the steps it owes |
| `ExitProtocol.LookIs` | kernel/src/scheduler/lifecycle.rs:211-224 | the look finds no child exactly when there is none, nothing yet exactly when none has a status and no thread, and otherwise the child asked for or the earliest such child |
| `WaitResults.FirstLook` | kernel/src/scheduler/lifecycle.rs:225-227 | the call ends with ECHILD exactly without such a child, empty-handed exactly when told not to hang with none gone, and else collects the earliest or sleeps |
| `WaitResults.LoopSleeps` | kernel/src/scheduler/lifecycle.rs:228-229 | in every run the loop goes to sleep exactly while no child it waits for is gone |
| `WaitResults.SleeperCollects` | kernel/src/scheduler/lifecycle.rs:228-231 | in every run a `wait4` that has slept goes on to collect a child, never empty-handed or with ECHILD |
| `WaitResults.CollectReturns` | kernel/src/scheduler/lifecycle.rs:233-236 | in every run collecting succeeds: the child is gone and the caller's own, its status comes back, and it is the caller's no more |
| `WaitResults.StatusIsGiven` | kernel/src/scheduler/lifecycle.rs:3-65 | in every run a status recorded for a process, or handed to its parent, was given to `exit` by a thread of that process |
| `Reaping.GoneOnceReaped` | kernel/src/scheduler/mod.rs:257-274 | in every run a process none of whose threads is a task or in the reaper's hand has no thread left in its record |
| `Reaping.ReaperTakes` | kernel/src/scheduler/mod.rs:257-274 | in every run the reaper takes the thread that exited first, and it is a task no more |
| `Reaping.ReaperDrops` | kernel/src/scheduler/mod.rs:257-274 | in every run it then drops that thread, the last of its process, from the record, which keeps its status for the parent |
| `Reaping.NoLeftovers` | kernel/src/process.rs:360-411 | in every run the record of a process that is gone stays only for a living parent to collect |
| `Reaping.SpawnedChild` | kernel/src/process.rs:278-294 | a spawned process is its maker's youngest child with one ready thread in the image |
| `Reaping.OrphansGoToInit` | kernel/src/scheduler/lifecycle.rs:24-31 | the children of an exiting process become the youngest of PID 1, in order; no other parent changes |
| `SpaceLedger.SpacesStep` | kernel/src/mm/address_space.rs:107-177 | every step keeps each registered space with exactly one holder |
| `SpaceLedger.ReleaseIsDue` | kernel/src/mm/address_space.rs:141-155 | a space about to be released is registered, not yet released, not active and in no record |
| `SpaceLedger.FreedBy` | kernel/src/scheduler/lifecycle.rs:101-112 | a step frees nothing but the first space the running task holds in a release loop |
| `SpaceLedger.ReleasedExactlyOnce` | kernel/src/exec/mod.rs:206-221 | over every run from boot, a space ever registered is held by exactly one of process, queue or task, or was released once, by the `exec` that left it or after its process was reaped |
| `RamTree.NoCycle` | kernel/src/fs/ramfs.rs:214-223 | a directory that leads to the root never lies below itself |
| `RamTree.MovedRooted` | kernel/src/fs/ramfs.rs:310-383 | moving a directory below one that is not below it leaves every directory leading to the root |
| `RamTreeProofs.CreateKeeps` | kernel/src/fs/ramfs.rs:255-276 | creating keeps the tree |
| `RamTreeProofs.UnlinkKeeps` | kernel/src/fs/ramfs.rs:278-289 | unlinking keeps the tree |
| `RamTreeProofs.RmdirKeeps` | kernel/src/fs/ramfs.rs:291-308 | removing a directory keeps the tree and marks the directory dead |
| `RamTreeProofs.CommitKeepsTree` | kernel/src/fs/ramfs.rs:310-383 | a committed rename keeps the tree if and only if the target directory is alive |
| `RamTreeProofs.CommitRenames` | kernel/src/fs/ramfs.rs:310-383 | the new name holds the entry, the old name is gone, a replaced directory is dead, and no other entry anywhere changes |
| `RamTreeProofs.CommitOutcome` | kernel/src/fs/ramfs.rs:351-378 | under the locks: success and each error by what lies at the two names |
| `RamTreeProofs.NameChecked` | kernel/src/fs/inode.rs:143-153 | names of 1 to 255 characters without a slash pass, but for the two dots; each error in its case |
| `RamTreeProofs.RenameMeanwhile` | kernel/src/fs/ramfs.rs:310-383 | whatever others create and remove between checks and commit, the tree survives if and only if the target was not removed |
| `RamTreeProofs.RenameIntoRemoved` | kernel/src/fs/ramfs.rs:310-383 | a run in which the checks pass, the target is removed, and the commit breaks the tree |
| `RamFs.FileSystem.IsWithin` | kernel/src/fs/ramfs.rs:214-223 | the upward walk ends and says exactly whether the directory lies at or below the other |
| `RamFs.FileSystem.CreateEntry` | kernel/src/fs/ramfs.rs:255-276 | succeeds exactly for a good, free name in a living directory; then one entry under a new number appears and nothing else changes; each error in its case |
| `RamFs.FileSystem.UnlinkEntry` | kernel/src/fs/ramfs.rs:278-289 | succeeds exactly for an entry that is no directory, and exactly that entry goes; each error in its case |
| `RamFs.FileSystem.RemoveDirectory` | kernel/src/fs/ramfs.rs:291-308 | succeeds exactly for an empty directory: the entry goes and the directory is dead; each error in its case |
| `RamFs.FileSystem.Rename` | kernel/src/fs/ramfs.rs:310-383 | succeeds exactly when the new name is free, or neither entry is a directory, or both are and the one there is empty and not the source's own; ENOTDIR, EISDIR, ENOTEMPTY, EINVAL and ENOENT in their cases; the entry moves and nothing else changes, or nothing does |
| `RamFiles.Store.Reserve` | kernel/src/fs/ramfs.rs:50-57 | succeeds exactly within the limit |
| `RamFiles.Store.Drop` | kernel/src/fs/ramfs.rs:107-113 | with the last reference the file's bytes are free again, others keep the file |
| `RamFiles.Store.Resize` | kernel/src/fs/ramfs.rs:117-134 | cut off or filled with zeros; refused with nothing changed exactly beyond the limit or when the heap is full; the count stays the sum of all lengths |
| `RamFiles.Store.WriteAt` | kernel/src/fs/ramfs.rs:166-176 | all bytes, with zeros in a gap before them, or none and nothing changed |
| `RamFiles.Store.ReadAt` | kernel/src/fs/ramfs.rs:153-164 | the bytes that are there, up to the count |
| `RamFiles.Store.Truncate` | kernel/src/fs/ramfs.rs:178-182 | the length becomes the size, common bytes stay, new ones are zero; refused exactly as a resize is |
| `RamFiles.Store.WriteThenRead` | kernel/src/fs/ramfs.rs:153-176 | what a successful write wrote is read back |
| `RamVolume.Volume.CreateFile` | kernel/src/fs/ramfs.rs:255-276 | a new name and a handle for the caller, two references in all, or nothing changes |
| `RamVolume.Volume.OpenFile` | kernel/src/fs/ramfs.rs:251-253 | one more reference to the file of that name |
| `RamVolume.Volume.Close` | kernel/src/fs/ramfs.rs:107-113 | the file goes exactly with its last handle when it has no name |
| `RamVolume.Volume.Unlink` | kernel/src/fs/ramfs.rs:278-289 | the name goes and open handles keep the file; counts stay exact |
| `RamVolume.Volume.Rename` | kernel/src/fs/ramfs.rs:310-383 | the file that gives way loses its name and goes unless it is open; counts stay exact |
| `RamVolume.Volume.Write` | kernel/src/fs/ramfs.rs:166-176 | contents change, references do not |
| `RamVolume.Volume.LivesWhileReferenced` | kernel/src/fs/ramfs.rs:107-134 | a file is there exactly while it has a name or a handle, and its bytes are counted exactly that long |
| `RamLocks.RenameDeadlocks` | kernel/src/fs/ramfs.rs:332-367 | a rename can end in a circle of waiting removals if and only if the directory it replaces lies above the source directory |
| `RamLocks.DeadlockHappens` | kernel/src/fs/ramfs.rs:332-367 | a tree of four directories, a rename and a removal that wait for each other |
| `RamLocks.RemovalsNeverDeadlock` | kernel/src/fs/ramfs.rs:291-308 | removals among themselves never wait in a circle |
| `Resampling.MixBetween` | kernel/src/sound/resample.rs:60-76 | the product stays within 49 bits and the mix between the two samples, so the cast to 16 bits loses nothing |
| `Resampling.MixIsMean` | kernel/src/sound/resample.rs:60-76 | the mix is the weighted mean of the two samples rounded down, and the first of them at fraction 0 |
| `Resampling.Resampler.Produce` | kernel/src/sound/resample.rs:60-76 | the next frame of the interpolated reference stream, or nothing exactly when its right neighbour has not been fed; no sum overflows |
| `Resampling.Resampler.Feed` | kernel/src/sound/resample.rs:50-58 | the frame joins the input and nothing already due is lost |
| `Resampling.ReferenceGrows` | kernel/src/sound/resample.rs:60-76 | more input does not change what came out |
| `Resampling.OneReference` | kernel/src/sound/resample.rs:60-76 | of two outputs for one input one is a prefix of the other, and they are equal when the shorter one is dry |
| `SoundFormat.SampleRoundTrip` | kernel/src/sound/format.rs:114-120 | a 16-bit sample encoded for the card decodes to itself |
| `SoundFormat.FrameBytes` | kernel/src/sound/format.rs:114-130 | which bytes of a frame hold which channel, low byte first, in each format; mono plays on both |
| `SoundFormat.FrameWritten` | kernel/src/sound/format.rs:181-183 | the card gets both channels as signed samples, left first, and they decode to the frame |
| `SoundFormat.FrameCompleted` | kernel/src/sound/format.rs:134-155 | bytes that complete a carried frame add exactly that frame to the stream |
| `SoundFormat.BytesCarried` | kernel/src/sound/format.rs:134-155 | fewer bytes add no frame and are carried |
| `SoundFormat.Converter.NextFrame` | kernel/src/sound/format.rs:134-155 | the next frame of the stream, or nothing taken when the input does not complete one |
| `SoundFormat.Converter.Convert` | kernel/src/sound/format.rs:158-194 | the output continues the reference stream of everything fed so far; unless the room is used up, all input is taken and nothing more can come of it |
| `SoundFormat.CutsDoNotMatter` | kernel/src/sound/format.rs:158-194 | of two converters fed the same bytes in different pieces, or one fed more, the output of one is a prefix of that of the other; a drained one is never behind, so both drained they agree |
| `SoundRing.Ring.CatchUp` | kernel/src/sound/ring.rs:122-153 | as many periods as the card has passed leave the front of the queue, never the one it plays; a halt empties it |
| `SoundRing.Ring.Space` | kernel/src/sound/ring.rs:157-162 | the room left in the period being filled, or none exactly when the ring is full |
| `SoundRing.Ring.Commit` | kernel/src/sound/ring.rs:165-185 | a full period joins the queue's end; a running card is told of it, an idle one started from period 0 |
| `SoundRing.Ring.Begin` | kernel/src/sound/ring.rs:189-198 | an idle card is started exactly when something is queued |
| `SoundRing.Ring.FillIsNotQueued` | kernel/src/sound/ring.rs:157-162 | the period being filled is never one the card may play |
| `SoundCard.Card.Poll` | kernel/src/sound/mod.rs:137-165 | the unplayed audio loses exactly the periods the card has passed, or all of it at a halt, or when a running card has stalled on its first period; the freed periods are silent, and underruns and stalls are counted in their cases |
| `SoundCard.Card.CommitStaged` | kernel/src/sound/mod.rs:178-192 | the bytes are appended to the unplayed audio; a card still running through silence is stopped before new audio goes in |
| `SoundCard.Card.Flush` | kernel/src/sound/mod.rs:256-264 | less than a period of silence is appended, nothing is left pending while there was room, and whatever is queued is playing |
| `SoundCard.Card.Reset` | kernel/src/sound/mod.rs:168-176 | the card is at rest and all audio dropped |
| `SoundCard.Card.WriteSome` | kernel/src/sound/mod.rs:387-418 | what the converter makes of the consumed input is appended, in order; it stops only at the end of the input or with a full ring |
| `SoundCard.Card.UnqueuedIsSilent` | kernel/src/sound/mod.rs:137-165 | a period that is not queued holds silence |
| `SoundCard.Card.MovingIdleIsSilent` | kernel/src/sound/mod.rs:178-192 | a card that may still be moving while the ring is idle finds every period silent |
| `Bav.EncodeVarint` | scripts/bav.py:33-42 | the loop computes the recursive varint of the format |
| `BavFormat.VarintReads` | scripts/bav.py:45-57 | a varint below 2^42 is read back and the rest left untouched |
| `Bav.DecodeVarint` | scripts/bav.py:45-57 | the loop reads the value and position the format prescribes, or fails exactly where it does |
| `Bav.FindRuns` | scripts/bav.py:60-65 | one pass finds the maximal runs, starting with black |
| `BavFormat.RowRunsPaint` | scripts/bav.py:60-65 | painting the runs of a row over any row gives the row |
| `BavFormat.PayloadSize` | scripts/bav.py:82-103 | no payload of a 16-bit sized frame comes near the varint limit |
| `BavFormat.FrameReads` | scripts/bav.py:82-139 | a frame encoded as changes to the previous one is read back on top of it |
| `BavFormat.FramesRead` | scripts/bav.py:111-139 | so is a whole list of frames |
| `Bav.Encoder.Add` | scripts/bav.py:82-103 | a frame is taken exactly when its size is right and becomes the next of the file |
| `Bav.Encoder.Finish` | scripts/bav.py:105-108 | succeeds exactly when the count fits in 32 bits, and patches it in |
| `Bav.Encoder.FinishedDecodes` | scripts/bav.py:68-108 | a finished file decodes to the frames added |
| `Bav.DecodeFile` | scripts/bav.py:111-139 | the decoder's loops compute the format's decoding of any bytes, malformed ones included |
| `BavFormat.DecodeEncodes` | scripts/bav.py:68-139 | for all frames with 16-bit width and height, decoding the encoded file, trailing bytes or not, gives them back with the header |
| `BavFormat.DecodedIsSized` | scripts/bav.py:111-139 | whatever bytes decode, the frames have the size and number the header gives |
| `BavLayout.HeaderLayout` | scripts/bav.py:71-76 | the header is BAV1, then width, height, frame rate and count, low bytes first |
| `BavLayout.VarintLayout` | scripts/bav.py:33-42 | all bytes of a varint but the last are marked, and none is wasted |
| `BavLayout.ChangedCounts` | scripts/bav.py:82-102 | a frame announces exactly as many rows as differ from the frame before |
| `BavLayout.UnchangedFrame` | scripts/bav.py:163-171 | a frame like the one before is the two bytes 1 and 0 |
| `BavLayout.RunsLayout` | scripts/bav.py:60-65 | runs add up to the row and alternate from black on; only the first may be empty, exactly when the row starts white |
| `Bav.EncodeAll` | scripts/bav.py:68-108 | the encoder's loops produce a file that decodes to the frames |
| `Bav.RoundTrip` | scripts/bav.py:142-172 | encoding and decoding, both by their loops, gives the pixels back |

## Left out

- BuddyAllocator.Allocator.Isolate: demands that no stale tag misleads it, the rule the comment on
  the free tag states; what it does otherwise is not modelled beyond StaleTagMisleads.
- BuddyAllocator.Allocator.Claim: covers the loop of `reserve` and of `allocate_scan`, not the
  argument checks before it, and like Scan and AllocateWithin asks for free frames without stale tags.
- BuddyAllocator.Allocator.AllocateWithin: one failure result stands for the different error kinds.
- CopyOnWrite.Memory.FreeFrame: the two panics of `free_frame` are demands on the caller; that no run
  meets them is part of the invariant kept by StepKeepsInv.
- CopyOnWrite.Memory.ForkCow: whether the heap has room for the child's lists is a parameter, and
  the frames for its tables come from a pool of their own; the new root is already there.
- AddressSpaces.AddressSpace.MapOwned: each address space draws on a frame pool of its own; sharing
  one pool among spaces, and the order of the ownership lists, are modelled in CopyOnWrite only. That
  the heap has room for one more list entry, here and in MapDevice, is taken for granted.
- PageTables.Space.constructor: the kernel half of a user root is not modelled.
- KernelTables.Tables.MapBig: the write that goes astray is assumed not to land in a frame used as a
  page table; kernel table frames are counted, not numbered.
- KernelTables.Tables.MapPage: refusals of unaligned or non-canonical addresses and the check that
  prepared root slots stay are left out, as callers only pass whole pages.
- KernelTables.Tables.MapRange: ranges are whole pages, and for several steps the table frames a call
  needs are bounded from above; EnsureTables and MapPage say exactly what one page needs.
- Processes.ProcessTable.ReapIfEmpty: reaping PID 1 or a process with children would leave links
  behind; `exit_current` lets neither happen, which BaseStep proves.
- StaticHeap.Heap.constructor: the heap does not start at address 0, and addresses do not wrap around.
- StaticHeap.Heap.Dealloc: freeing what was not allocated, or with another layout, is excluded, as
  the global allocator's contract does.
- Bav.EncodeAll: bits are combined by addition where the script uses a bitwise or of disjoint bits.
- RamLocks.RenameDeadlocks: covers the entry maps; the rename lock and the locks of parent links are
  taken and given back around them.
- SoundCard.Card.Poll: whether the card has stalled, has halted or stops by itself is a parameter;
  clocks and device registers are not modelled.
- The page heap behind the static heap, and `validate` of the heap.
- TLB flushes, `CR3`, PAT set-up, `unmap_page` of the kernel half, and the bootstrap identity map.
- Scheduling policy, priorities, sleeping until a deadline, and tasks registered as child waiters; a
  task may be switched at any point between two critical sections instead.
- Reference holds on processes (`retain`, `release`) and the wrap-around of process and task ids.
- Holds on frame ranges, zone set-up and the building of the physical memory map.
- ELF loading, argument stacks, and the contents of pages that `exec` prepares.
- Device nodes, `stat`, `entries`, mounts, and renames across file systems.
- `/dev/dsp` requests, rate changes, draining, and the drivers below the card.
- `add_grey` and the command line of the video script.
- The shell, window system, network, drivers and user programs.
