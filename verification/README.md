# A small ARM64 kernel, modelled and proved

The kernel runs up to ten processes, each with a 2 MB kernel stack, a three-level page table and one
2 MB user page at 0x400000. It allocates 2 MB pages from a free list threaded through the pages,
schedules round robin, blocks processes in `wait`, `sys_sleep` and the keyboard read, and reads files
from a FAT16 image. This project models those parts and proves what they keep.

Check everything with `dafny verify dfyconfig.toml`.

## How it is laid out

| files | what they hold |
|---|---|
| `Words` | bit operations on 64-bit words |
| `Paging`, `Walks`, `Teardown`, `UserMaps` | memory as 384 pages of words, the free list, page-table entries, the architecture's table walk, and `map_page`, `free_vm`, `copy_uvm`, `setup_uvm` as functions on memory values |
| `Access` | what user code may do with a page: the walk again with the attributes the processor checks |
| `Memory` | `memory.c` updating memory in place, tied to those functions |
| `Machine`, `MachineInv`, `MachineRuns`, `MachineLaws` | the scheduler as a transition system, its invariant, and laws of whole runs |
| `System`, `SystemRuns` | scheduler and memory together: `fork`, `exec`, `exit`, `wait`, user stores and trap frames |
| `Outcomes` | what exec, a trap, a user store and start-up leave behind, in terms of what user code reads |
| `Lists`, `Scheduler`, `KernelCode` | `list.c` and `process.c` in place: linked process structures, the process table, and `fork` and `wait` with the allocator |
| `Fat`, `Names`, `FileTables`, `FileLaws`, `Files` | cluster chains, 8.3 names, open-file tables as a transition system with laws of runs, and the same calls in place |
| `Volumes` | a FAT16 volume and its layout byte by byte; what the reader finds on such an image |
| `Exec` | `exec` in place, with the file calls, the process table and memory together |
| `Memcpy` | `memcpy`, forwards and backwards |
| `Keyboard`, `KeyRuns` | the key buffer under any number of readers, and joined with the scheduler |
| `Context`, `FirstRun` | traps, returns and context switches of all processes as a transition system |

## How to read the model

- A page of memory carries a role: reserved, free, held, table (naming the entry that points to it) or
  mapped block. Roles are bookkeeping; the invariant ties them to the words in memory in both directions.
- Every method in `Memory` and `KernelCode` that reads or writes a page requires it to be off the free
  list, so none touches a page after freeing it. `Kalloc` alone reads the link word of a free page.
- One scheduler event is one stretch of kernel code without suspension. Interrupts are masked in the
  kernel, so this loses no interleaving; a process inside a blocking call remembers which call.
- `Volumes` does not use the accessors of `Fat`: it says where each byte of a volume goes, and its lemmas say
  that the accessors find it there.
- A failed `ASSERT` stops the kernel. Methods that can reach one say exactly when.
- In `SystemRuns` an event of the scheduler carries the result a returning call stores in x0, and what
  kernel code leaves on its own stack below the trap frame is an action of its own (`Scratch`). The
  methods in `KernelCode` compute the event itself; `system_call` stores the result after them.

## What the code does that one might not expect

- `free_vm` frees only the user page at 0x400000. `NothingStranded` states that this is enough exactly
  when no other block is mapped.
- `close_file` tests `FileDesc.count` but never lowers it, so descriptors are never reused.
- Reaping a process drops its file handles without lowering the FCB counts. The counts are the live
  handles plus the dropped ones.
- The sum `position + size` in `read_file` is 32 bits wide. The check is right exactly when it does not
  wrap (`ReadCheckIsExact`). From the start, opening a file that is not empty and reading one byte is
  enough for a read of 2^32 - 1 bytes to pass (`ReadCheckWrapsFromStart`): the sum in `read_raw_data`
  wraps as well, one `memcpy` is asked for all the bytes, and the position becomes 0. Other reads that
  pass by a wrap go on to the end of the cluster chain and may leave the position past the end of the
  file; `ReadKeepsPositions` says when.
- A read of no bytes at the end of a file that fills its last cluster fails an assertion; `HaltsPastTheEnd`
  covers it.
- The backward branch of `memcpy` loads words from the last byte upwards: from four bytes on it leaves out
  three bytes of the destination and writes three bytes past it. `memcpy` is right for every memory if
  and only if it does not copy four bytes or more backwards.
- `read_key_buffer` captures the read index before sleeping and does not look again. With several readers
  the characters come out in order if and only if no read returns while another one is under way;
  otherwise a key can go to two readers or get lost.

## Model

| member | source | states |
|---|---|---|
| Words.AndField | src/utils/memory.h:28-31 | Masking with `0xfffffffff000` or `0xffffffe00000` extracts exactly the bits between two positions |
| Paging.EntryRoundTrip | src/utils/memory.c:83 | An entry made from a page address, attributes and type has the valid bit, its type bit, and gives the page back through the address masks |
| Paging.PopInv | src/utils/memory.c:39-52 | Taking the first free page keeps the free list threaded through the pages, duplicate-free and exactly the free pages, and every map intact |
| Paging.HeldPush | src/utils/memory.c:27-37 | Freeing a page that is part of no map keeps the same invariant |
| Paging.LinkInv | src/utils/memory.c:79-85 | Hanging a cleared free page below an empty table entry keeps the invariant, and so keeps tables of different maps disjoint |
| Paging.UnlinkInv | src/utils/memory.c:166-169 | Freeing a mapped page or a childless table and clearing its entry keeps the invariant |
| Walks.WalkIsBlockFrame | src/utils/memory.c:70-113 | On memory the kernel built, the architecture's bit-level walk equals following entries from page to page |
| Walks.LinkKeepsWalks | src/utils/memory.c:79-85 | Adding an empty table changes the translation of no address of any map |
| Walks.MapPageInv | src/utils/memory.c:115-135 | `map_page` keeps the invariant, takes exactly the missing tables off the free list, or all that is left when they do not suffice |
| Walks.MapPageWalks | src/utils/memory.c:115-135 | When `map_page` succeeds, exactly the addresses of the 2 MB block translate to the new page; every other address of every map translates as before, also on failure part-way down |
| Walks.MapPageContents | src/utils/memory.c:115-135 | `map_page` writes no page but tables and pages it takes off the free list |
| Access.AccessIsWalk | src/utils/memory.h:35-47 | What user code may reach, with access flag, EL0 permission, memory type and execute-never bits checked on the way, is where the address translates to |
| Access.UvmEntry | src/utils/memory.c:132-132 | The entry `map_page` stores for a user page has the page's address, the access flag, EL0 read and write, memory index 1, and is executable |
| Access.UserPathAccess | src/utils/memory.c:70-113 | Below two table entries and such a leaf, user code reaches exactly the 2 MB block at 0x400000, and there the page |
| Access.MapPageLeaf | src/utils/memory.c:115-135 | After `map_page` the entry on the path of the address is the page's address with exactly the given attributes in its low bits |
| Access.MapPageKeepsEntries | src/utils/memory.c:115-135 | `map_page` changes no valid entry of any table, so no other page's attributes either |
| Teardown.FreePageKeeps | src/utils/memory.c:137-154 | `free_page` frees the page mapped at the address, if any, and nothing else |
| Teardown.UnlinkPmdsDone | src/utils/memory.c:156-173 | The nested loops of `free_pmd` free all level-2 tables of the map, once each |
| Teardown.FreeVmDone | src/utils/memory.c:192-199 | `free_vm` pushes the user page, all tables and the root, keeps the invariant, and leaves every page in use as it was |
| Teardown.FreeVmKeepsOtherMaps | src/utils/memory.c:192-199 | `free_vm` changes no translation of any other map |
| Teardown.NothingStranded | src/utils/memory.c:195 | `free_vm` gives back every page of the map if and only if the map has no block besides the one at 0x400000 |
| Teardown.MapThenFree | src/utils/memory.c:115-199 | `map_page` followed by `free_vm` frees the mapped page and otherwise exactly what `free_vm` alone would free |
| UserMaps.CopyUvmOutcome | src/utils/memory.c:236-268 | `copy_uvm` succeeds exactly when pages suffice and the source has its tables; then the new page starts with the source's words; otherwise exactly the pages of the destination map joined the free list |
| UserMaps.CopyUvmWalks | src/utils/memory.c:236-268 | After `copy_uvm` the destination maps the new page at 0x400000 and no other translation of any map changed |
| UserMaps.CopyUvmLeaf | src/utils/memory.c:236-268 | After `copy_uvm` the entry of 0x400000 in the destination is the new page with the attributes of user memory |
| UserMaps.SetupUvmOutcome | src/utils/memory.c:201-234 | The same for `setup_uvm`, also when the file is missing or comes up short |
| UserMaps.SetupUvmLeaf | src/utils/memory.c:201-234 | The same after `setup_uvm` |
| Memory.PhysicalMemory.Kalloc | src/utils/memory.c:39-52 | Pops the threaded list in place, or returns NULL and changes nothing |
| Memory.PhysicalMemory.Kfree | src/utils/memory.c:27-37 | Pushes the page in place; the arguments meet the three assertions |
| Memory.PhysicalMemory.FreeRegion | src/utils/memory.c:16-25 | Frees exactly the whole aligned pages inside the region, lowest first |
| Memory.PhysicalMemory.InitMemory | src/utils/memory.c:275-279 | Afterwards the free list holds exactly the pages from the end of the kernel to the end of the heap, highest first |
| Memory.PhysicalMemory.FindPudEntry | src/utils/memory.c:90-113 | Finds or builds the level-2 table, as the function on memory values says |
| Memory.PhysicalMemory.MapPage | src/utils/memory.c:115-135 | In place: the memory is that of the `MapPage` function; the walk of every address of every map, and the stored entry with its attributes, are stated outright |
| Memory.PhysicalMemory.FreePmd | src/utils/memory.c:156-173 | In place: the nested loops compute `UnlinkPmds` |
| Memory.PhysicalMemory.FreeVm | src/utils/memory.c:192-199 | In place: the memory is that of `FreeVm`; only pages of the map join the free list |
| Memory.PhysicalMemory.CopyUvm | src/utils/memory.c:236-268 | In place: result and memory are those of `CopyUvm` |
| Memory.PhysicalMemory.SetupUvm | src/utils/memory.c:201-234 | In place: result and memory are those of `SetupUvm` |
| Machine.FirstWaiter | src/utils/list.c:42-68 | The position of the first list member with the given wait value, or the length |
| MachineInv.StepInv | src/process/process.c:97-269 | Every event keeps: a process is on the list of its state exactly once, the idle process on none, one process runs and is current, pids are distinct, unused slots are zero, and nobody sleeps in `wait(p)` while a killed process p exists |
| MachineInv.DieWoken | src/process/process.c:191-205 | After `exit` marked its process killed and woke the waiters, nobody is asleep in `wait` |
| MachineRuns.StepPages | src/process/process.c:217-223 | Every event keeps the partition of the heap into free pages and the pages of exactly one process |
| MachineRuns.PagesConserved | src/process/process.c:50-77 | Over every run, free pages plus five for each slot in use is the size of the heap |
| MachineLaws.StepReady | src/process/process.c:103-148 | Every event only appends to the ready list, and takes its head exactly when it calls `schedule` |
| MachineLaws.SwitchIsReal | src/process/process.c:97-125 | `schedule` never switches from a process to itself |
| MachineLaws.RoundRobin | src/process/process.c:103-148 | A process at index k of the ready list becomes current at exactly the (k+1)-th later call of `schedule` |
| MachineLaws.RunsWithinTimers | src/vector_t/exception_handler.c:27-53 | It has run by the time k+1 timer interrupts have come |
| MachineLaws.ExitKills | src/process/process.c:191-205 | In no state of any run after `exit` is the process current again, so the code after `exit` never runs |
| MachineLaws.PidsNeverReused | src/process/process.c:62 | In any later state a pid handed out earlier still means the same slot with the same pages |
| MachineLaws.ForkGivesFreshPid | src/process/process.c:50-62 | The child is in a zeroed slot with a pid above every other, and no other slot or list but the ready list changes |
| MachineLaws.SleepLowerBound | src/syscall/syscall.c:15-30 | In every state before n timer interrupts came after the call, `sys_sleep(n)` has not returned |
| MachineLaws.TicksCountTimers | src/timer/generic_timer.c:20-32 | Over every run the tick counter grows by the number of timer interrupts |
| MachineLaws.SleeperLeaves | src/syscall/syscall.c:23-27 | A sleeper that runs again leaves the call exactly when its ticks have elapsed |
| MachineLaws.TickWakesAll | src/timer/generic_timer.c:20-32 | After a timer interrupt no process is left asleep in `sys_sleep` |
| MachineLaws.KeyWakesAll | src/keyboard/keyboard.c:37-43 | After a key press no process is left asleep in the keyboard read |
| MachineLaws.WokenExactly | src/process/process.c:171-189 | Over every event a sleeping process wakes up if and only if it is the one it sleeps for (timer, key or exit); otherwise nothing of it changes |
| MachineLaws.WokenInOrder | src/process/process.c:171-189 | Two processes woken by one event join the ready list in the order in which they fell asleep |
| MachineLaws.WaitReaps | src/process/process.c:207-230 | A round of `wait(pid)` returns exactly when a killed process with that pid exists; that slot becomes zero, its pages free, its list entry gone, and nothing else changes |
| MachineLaws.WaitEnds | src/process/process.c:207-230 | Whenever a process is out of `wait(pid)`, no process with that pid is left, nor ever will be |
| System.WithPageInv | src/process/process.c:50-77 | Taking a page for a stack, or a cleared one for a new root, keeps the memory invariant |
| System.UserWalk | src/process/process.c:97-101 | Every process translates the block at 0x400000 to its own user page and no other address at all, and its user code may access all of it |
| System.ForkMemIs | src/process/process.c:232-269 | What fork does to memory: five pages change hands, the user page is copied, the child's frame is the parent's with x0 = 0, and nothing else changes but the parent's x0 |
| System.ReapMemIs | src/process/process.c:221-222 | Reaping puts exactly the five pages of the process on the free list and leaves every other page in use alone |
| System.FrameRoundTrip | src/process/process.c:263 | Writing a trap frame and reading it back gives the frame; the rest of the stack is kept |
| SystemRuns.UserStoreWrites | src/process/process.c:97-101 | A store of user code, sent through the table walk with its permission checks, changes one word of the process's own user page |
| SystemRuns.ForkStep | src/process/process.c:232-269 | fork keeps all invariants of scheduler and memory, and its outcome is stated in full |
| SystemRuns.NextCoupled | src/process/process.c:191-296 | Every action keeps scheduler, memory and page ownership in agreement, and leaves the pages of every process alone that neither acts nor is reaped by it |
| SystemRuns.Isolation | src/process/process.c:271-296 | Over any run in which a process does not act and is not reaped, it finds its user page and its whole stack page as it left them, whatever others store, exec, fork or reap |
| SystemRuns.OwnCallsKeepFrame | src/syscall/syscall.c:96-112 | Through its own sleeps, waits, key reads and timer interrupts as well, a process keeps its user page and its trap frame; only x0 changes, and only when a call of its own returns |
| SystemRuns.ResultInFrame | src/syscall/syscall.c:111 | When a call returns, its result is in x0 of the frame of the process that made it |
| SystemRuns.ChildStartsAsCopy | src/process/process.c:232-269 | A child's user page equals the parent's at the fork, and its frame the parent's with x0 = 0, until the child or its reaper acts |
| SystemRuns.RunningPagesInUse | src/process/process.c:97-125 | In every reachable state the running process's stack and the tables of its map are off the free list and its translation is in place |
| SystemRuns.FreeListLength | src/process/process.c:50-77 | In every reachable state the free list is five pages shorter for each process |
| SystemRuns.BootCoupled | src/process/process.c:79-155 | The state `init_process` leaves satisfies all of this |
| SystemRuns.PagesFromBoot | src/fs/fs.c:307-330 | From the pages `init_memory` freed, two for the file tables: in every reachable state free pages, two, and five per process add up to them |
| SystemRuns.BlankAtBoot | src/fs/fs.c:307-347 | After `init_memory` and `init_fs`, `init_process` starts from a memory without maps |
| Outcomes.UserLoadIs | src/process/process.c:97-101 | In every coupled state user code of each process reads its own user page at 0x400000 to 0x5fffff and nothing elsewhere |
| Outcomes.ExecOutcome | src/process/process.c:281-293 | After exec every load of user code at 0x400000 to 0x5fffff gives the image's word; the frame has elr 0x400000, sp_el0 0x600000 and zeros; the stack below it, the scheduler's state, every other process and every other page are as before |
| Outcomes.EnterOutcome | src/vector_t/vector_table.s:1-59 | After a trap the running process's frame is the saved one, word by word, and nothing else changed |
| Outcomes.StoreOutcome | src/process/process.c:97-101 | After a store user code reads the stored word at its address and what it read before everywhere else |
| Outcomes.BootOutcome | src/process/process.c:79-95 | After `init_process` user code of process 1 reads the words of its program followed by zeros; its stack is zero but for the saved return address and the new frame; it is ready and alone |
| Lists.HeadList.AppendTail | src/utils/list.c:5-17 | In place: the list becomes itself followed by the item; the tail is the last item |
| Lists.HeadList.RemoveHead | src/utils/list.c:19-35 | In place: the first item, or NULL |
| Lists.HeadList.Remove | src/utils/list.c:42-68 | In place: the first item with the wait value leaves, the order of the others stays, and the tail never becomes the head structure |
| Lists.FirstWaitingIs | src/utils/list.c:42-68 | The item the search loop stops at is the first waiting one |
| Scheduler.WakeOneKeeps | src/process/process.c:182-188 | Each turn of the loop in `wake_up` leaves the final result the same, with one waiter fewer |
| Scheduler.ProcessControl.WakeUp | src/process/process.c:171-189 | In place: ready becomes ready followed by the waiters in order, the wait list keeps the others in order |
| Scheduler.ProcessControl.Schedule | src/process/process.c:97-125 | In place: `Schedule` of the transition system; the new process is never the old one, and the page-table register holds its map |
| Scheduler.ProcessControl.constructor | src/process/process.c:34-48 | The idle process runs, on the map the boot code loaded, and the invariant holds |
| Scheduler.ProcessControl.Yield | src/process/process.c:127-148 | In place: `Yield` |
| Scheduler.ProcessControl.SleepFor | src/process/process.c:157-169 | In place: `SleepOn` |
| Scheduler.ProcessControl.Exit | src/process/process.c:191-205 | In place: `ExitProcess`, keeping the invariant |
| Scheduler.ProcessControl.TimerInterrupt | src/timer/generic_timer.c:20-32 | In place: a tick, the wake-up and the yield, keeping the invariant |
| Scheduler.ProcessControl.SleepRound | src/syscall/syscall.c:15-30 | In place: one turn of the sleep loop, keeping the invariant |
| Scheduler.ProcessControl.FindUnused | src/process/process.c:19-31 | The first unused slot, or NULL |
| KernelCode.KernelState.WaitRound | src/process/process.c:207-230 | In place, with the allocator: one turn of `wait` is the joint step, reaping included, and keeps all invariants |
| KernelCode.KernelState.Fork | src/process/process.c:232-269 | In place, with the allocator: fork is the joint step and keeps all invariants; it halts exactly when fewer than five pages are left |
| KernelCode.KernelState.NewStack | src/process/process.c:56-69 | The cleared stack page with its saved return address and new trap frame |
| KernelCode.KernelState.LoadedRoot | src/utils/memory.c:270-273 | While a process runs, the page-table register holds the root of its own map, which is in use and translates its addresses |
| Fat.LengthIs | src/fs/fs.c:160-163 | The chain length counts exactly the clusters before the first end mark |
| Fat.OffsetInImage | src/fs/fs.c:33-49 | For clusters whose data lies in the image the 32-bit offset does not wrap |
| Fat.FollowLinks | src/fs/fs.c:160-163 | The first loop finds the n-th cluster, or fails its assertion exactly when an end mark comes before |
| Fat.ReadRawData | src/fs/fs.c:150-191 | For every position and size of 32 bits: exactly when the assertion fails, when a sum wraps and what happens then; otherwise the buffer gets exactly that slice of the concatenated cluster data, up to size or the end of the chain, and nothing past it is written |
| Fat.EndingChainFits | src/fs/fs.c:175-188 | The clusters of a chain that ends are all different, so they are no larger than the image |
| Fat.EndingChainNotLost | src/fs/fs.c:178-186 | On such a chain the loop's 32-bit counter never wraps |
| Fat.ReadLengthInChain | src/fs/fs.c:150-191 | In a chain of n clusters a read delivers the smaller of its size and what is left |
| Fat.ReadLengthCyclic | src/fs/fs.c:175-188 | On a chain without an end the read ends with all it was asked for |
| Fat.HaltsPastTheEnd | src/fs/fs.c:160-163 | The assertion fails exactly for positions at or past the end of the chain, whatever the size |
| Fat.ConsecutiveReads | src/fs/fs.c:194-208 | Two adjacent slices are one |
| Names.SplitPath | src/fs/fs.c:88-117 | Accepts exactly the paths of 8.3 shape and pads name and extension with spaces |
| Names.SearchFile | src/fs/fs.c:119-147 | The least live entry, not part of a long name, whose padded name is the path's; no entry exactly when the shape is wrong or none matches |
| Volumes.GeometryIs | src/fs/fs.h:6-27 | On the image of a volume the boot sector's fields are read back |
| Volumes.FatEntryIs | src/fs/fs.c:18-31 | The successor of a cluster is its entry in the volume's table |
| Volumes.ItemIs | src/fs/fs.h:29-43 | Name, extension, cluster, size and liveness of a directory entry are read back |
| Volumes.ClusterIs | src/fs/fs.c:33-49 | Every byte of every cluster lies where the reader looks for it |
| Volumes.ReadsContents | src/fs/fs.c:150-191 | The bytes read along a chain are those of the volume's clusters, one after the other as its table links them |
| Volumes.NameIs | src/fs/fs.c:76-117 | A text `base.ext` is a name exactly if its parts have at most eight and three characters and no slash, and it matches exactly the entries in use that hold the parts filled up with spaces |
| Volumes.NamesAre | src/fs/fs.c:119-147 | On the image of a volume a path names the first matching entry of its directory, and nothing else |
| Volumes.FileOnImage | src/fs/fs.c:150-208 | A file of the volume can be loaded, and its bytes on the image are its data |
| FileLaws.ReadCheckIsExact | src/fs/fs.c:200-202 | With positions inside their files, the check refuses exactly the reads that go past the end if and only if position and size add up to less than 2^32 |
| FileLaws.ReadCheckWrapsFromStart | src/fs/fs.c:167-202 | After opening a file that is not empty and reading one byte, a read of 2^32 - 1 bytes is accepted, counts as read in full, and leaves position 0 |
| FileLaws.ReadKeepsPositions | src/fs/fs.c:194-208 | Across a read positions stay inside their files if and only if the sum does not wrap, or the first copy wraps, or the chain ends inside the file, or the read is refused or halts |
| FileLaws.StepInv | src/fs/fs.c:211-304 | Every file call keeps: an FCB's count is its live handles plus those dropped by reaping, live handles have an FCB, FCBs agree with the directory |
| FileLaws.OpenOutcome | src/fs/fs.c:245-286 | An open changes nothing, or opens the lowest free handle at the start of the entry's file through the lowest unused descriptor; that FCB's count rises by one; every other handle keeps file and position |
| FileLaws.CloseOutcome | src/fs/fs.c:289-304 | A close frees the handle and lowers its FCB's count by one; every other handle keeps file and position |
| FileLaws.ChildInherits | src/process/process.c:254-261 | After fork every handle of the child is the parent's, open on the same file at the same position; other rows are as before, and each count rises by the number of the parent's handles |
| FileLaws.ChildReadsOn | src/process/process.c:254-261 | Over any run after a fork, a child's read through an inherited handle goes on where the last read through it, by whichever process, stopped |
| FileLaws.ParentThenChild | src/process/process.c:254-261 | A read of the parent and then one of the child deliver consecutive slices of the file |
| FileLaws.ClosingIsCounted | src/fs/fs.c:289-293 | The assertion in `put_fcb` holds whenever a live handle is closed |
| FileLaws.DescriptorsNeverRecycled | src/fs/fs.c:295-304 | Over any run a descriptor that has an FCB keeps it and is never handed out again |
| FileLaws.OpensUseUpDescriptors | src/fs/fs.c:263-272 | Over any run, descriptors in use at the start plus successful opens are the descriptors in use at the end, and so never more than the table holds |
| FileLaws.FullTable | src/fs/fs.c:263-272 | With a free handle, opening an entry fails if and only if all descriptors are in use |
| FileLaws.InterleavedReads | src/fs/fs.c:194-208 | Reads through one descriptor by all processes that inherited it deliver consecutive slices; together they are one read; if no accepted sum wraps it ends within the file |
| FileLaws.EndingChainIsPlain | src/fs/fs.c:167-170 | On a chain that ends, this covers every read except those whose first copy wraps |
| FileLaws.OpenThenRead | src/fs/fs.c:245-286 | Opening an entry whose chain covers its size and reading that size delivers the first bytes of its chain, all of them, if and only if its clusters hold less than 4 GB |
| FileLaws.StartInv | src/fs/fs.c:307-330 | The cleared tables satisfy the invariant |
| Files.FileSystem.OpenFile | src/fs/fs.c:245-286 | In place: `Open` with what `SearchFile` finds |
| Files.FileSystem.CloseFile | src/fs/fs.c:295-304 | In place: `Close` |
| Files.FileSystem.ForkFiles | src/process/process.c:254-261 | In place: the loop over the handles, whose result `FileLaws.ChildInherits` describes |
| Files.FileSystem.ReadFile | src/fs/fs.c:194-208 | In place, for every size: refused with no change, halted, run wild by a wrapped sum, or the next slice of the file with the position moved past it, each exactly when `ReadOutcome` says |
| Files.FileSystem.LoadFile | src/process/process.c:276-288 | open, get_file_size, read and close together: the buffer starts with the first EntrySize bytes of the cluster chain of the entry the path names, and handles and reference counts are as before; or the open failed and nothing changed, exactly when no entry is named or no handle or descriptor is free |
| Volumes.LoadedFromVolume | src/process/process.c:276-288 | On the image of a volume the buffer then starts with the data of the file the path names |
| Volumes.VolumeLoadable | src/process/process.c:276-288 | What such a load asks of the image, in terms of the volume |
| Exec.ByteOfLittleEndian | src/process/process.c:283-283 | A byte loaded from a word is the byte stored there |
| Exec.ExecReadsFile | src/process/process.c:271-296 | After exec user code reads, byte by byte from 0x400000 on, the bytes that the file calls delivered, followed by zeros |
| Exec.ExecReadsVolume | src/process/process.c:271-296 | On the image of a volume these are the data of the file that the path names |
| Exec.BootReadsProgram | src/process/process.c:79-95 | Process 1 reads the bytes of its program in the same way |
| Exec.Exec | src/process/process.c:271-296 | In place, on file tables, process table and memory together: exit exactly when the file cannot be opened, changing no file table; otherwise the joint step that loads the page of the bytes read |
| Memcpy.CopyForward | src/utils/utils.s:82-105 | Words then bytes, for every size and every disjoint or backward-shifting pair of ranges: the destination gets the old source, nothing else changes, no load leaves the source |
| Memcpy.CopyBackward | src/utils/utils.s:76-105 | In place: the memory it leaves, byte by byte, the left-out and the spilled bytes included |
| Memcpy.Copy | src/utils/utils.s:61-105 | In place: the memory is that of `CopyResult` in either direction |
| Memcpy.BackwardIsRight | src/utils/utils.s:71-90 | A backward copy of four bytes or more equals a right copy if and only if the three left-out bytes and the three spilled ones hold what a right copy would leave there |
| Memcpy.RightForAllMemories | src/utils/utils.s:61-105 | memcpy is right for every memory if and only if it does not copy four bytes or more backwards |
| Keyboard.WriteAppends | src/keyboard/keyboard.c:7-18 | A character is appended to the queue unless 499 are waiting |
| Keyboard.TakeIsHead | src/keyboard/keyboard.c:20-30 | Taking at the current read index gives and removes the oldest character |
| Keyboard.InOrderIffProper | src/keyboard/keyboard.c:20-30 | Over any run with any number of readers, the n-th read returns the n-th accepted character, for all reads, if and only if each read finds a character and holds the current read index |
| Keyboard.InOrderIffNoneOvertakes | src/keyboard/keyboard.c:20-30 | From the start, with fewer than 500 reads returning during any one: all reads come out in order if and only if no read returns while another is under way; then returned characters followed by waiting ones are the accepted ones |
| Keyboard.TwoReadersShareAKey | src/keyboard/keyboard.c:20-30 | Two sleeping readers both get the key that wakes them, and the buffer then seems to hold 499 characters |
| Keyboard.OvertakenReaderLosesAKey | src/keyboard/keyboard.c:20-30 | Two keys before a woken reader runs, and a new read first: both reads return the first key and the second is lost |
| Keyboard.LoneReader | src/keyboard/keyboard.c:20-30 | When reads begin only while none is under way, no read overtakes another |
| Keyboard.KeyBuffer.KeyPressed | src/keyboard/keyboard.c:37-43 | In place: the key event of the transition system |
| Keyboard.KeyBuffer.BeginRead | src/keyboard/keyboard.c:20-26 | In place, for any number of readers: the captured index, and whether the read sleeps |
| Keyboard.KeyBuffer.FinishRead | src/keyboard/keyboard.c:28-29 | In place: the end of a read; a proper read after reads in order returns the next accepted character |
| KeyRuns.NextCoupled | src/keyboard/keyboard.c:20-43 | Every event of scheduler and ring together, a read sleeping exactly if the ring is empty, keeps: the reads under way are those of the processes in the call, and the readers asleep are those the scheduler has asleep |
| KeyRuns.OneReaderInOrder | src/keyboard/keyboard.c:20-43 | In every state of a run in which no read starts while a process is in one: characters were returned in order without loss, a process asleep in the read means an empty ring, a woken one holds the index of a character |
| KeyRuns.StepOutcome | src/keyboard/keyboard.c:20-43 | A read of a non-empty ring and the resumption of a reader each return exactly one character, the oldest when reads are in order; a read of an empty ring and every other event return none |
| KeyRuns.ReadsReturn | src/keyboard/keyboard.c:20-43 | Over every run the characters returned grow by the number of reads that completed |
| KeyRuns.ReadsInOrderIff | src/keyboard/keyboard.c:20-43 | With any number of reading processes, the reads of a run are in order if and only if each is proper |
| Context.EntryThenReturn | src/vector_t/vector_table.s:1-59 | Whatever happens in between, returning through an unchanged frame restores x0 to x30, sp_el0, elr, spsr and sp |
| Context.StepInv | src/vector_t/vector_table.s:1-182 | Kernel and user work, traps, returns, switches, new and reaped processes keep: stacks apart, saved contexts below the trap frames, and in user code the kernel's stack pointer at the very top of the stack |
| Context.EntryAtFrame | src/vector_t/vector_table.s:1-59 | So an exception in user code writes the frame exactly where process->tf points, passes that address in x0, and changes nothing else |
| Context.ContextRestored | src/vector_t/vector_table.s:161-182 | A switch away, any run of the others, and the switch back restore x19 to x30, sp and the stack above it |
| Context.UserStateSurvives | src/vector_t/vector_table.s:1-182 | From an exception in user code to the return to it, over any run of all processes, every user register comes back whose word of the frame the kernel's own work for the process did not write |
| Context.InterruptIsInvisible | src/vector_t/vector_table.s:1-182 | If that work writes no word of the frame, user code goes on with the very same registers |
| Context.Processor.KernelEntry | src/vector_t/vector_table.s:1-59 | In place: the stores of the entry code build the frame |
| Context.Processor.ReturnFromTrap | src/vector_t/vector_table.s:135-139 | In place: the loads of `trap_return` |
| Context.Processor.SwapStacks | src/vector_t/vector_table.s:161-182 | In place: `swap` |
| FirstRun.EntrySavesFrame | src/vector_t/vector_table.s:1-59 | On the stack page a trap does what saving a frame does in the joint model |
| FirstRun.FirstSwitch | src/process/process.c:64-69 | From the creation of a process, over any run of the others, its first switch reaches `trap_return` with sp at its frame, and user code starts at 0x400000 |
| FirstRun.FirstSwitchOfChild | src/process/process.c:263-264 | In the same way a child starts with its parent's registers and x0 = 0 |

## Left out

- KernelCode.KernelState.Fork: requires an unused slot, because `alloc_new_process` dereferences NULL when the table is full; the copies of the file handles and their counts are Files.FileSystem.ForkFiles.
- Machine.FirstWaiter: states the search on values; the pointer-chasing form is Lists.HeadList.Remove.
- UserMaps.SetupUvmOutcome: the file calls enter as a parameter, so that the handle left open when a file comes up short is not part of it; the file calls together are Files.FileSystem.LoadFile.
- Memory.PhysicalMemory.SetupUvm: takes the result of the file calls as a parameter, as above.
- KernelCode.KernelState.WaitRound: the file handles of the reaped process are cleared by Files.FileSystem.Discard.
- Fat.ReadRawData: requires the clusters it touches to lie in the image and the buffer to hold what is delivered, which the code does not check; where a wrapped sum makes `memcpy` run past cluster or buffer, what that does to memory is not modelled.
- FileLaws.StepInv: leaves out reads that lose count on a cyclic chain of 4 GB, where the code copies on without end.
- FileLaws.InterleavedReads: leaves out reads whose first copy wraps, which deliver no slice of the file (FileLaws.EndingChainIsPlain).
- Memcpy.Copy: an overlapping backward copy of four bytes or more needs three bytes of memory past the ranges, which it reads and overwrites.
- Keyboard.InOrderIffNoneOvertakes: fewer than 500 reads return during a read; Keyboard.InOrderIffProper has no such bound.
- Context.StepInv: kernel code keeps its stack pointer below the trap frame and inside the stack page, as compiled code without overflow does.
- UART, interrupt controller, timer registers, console and printing: device access and formatting; only the resulting events appear.
- Boot code and the kernel's own translation tables: constant and built once; the linear map of the heap is assumed.
- Caches, barriers, TLB maintenance and exception levels: not visible at this level; loading the page-table register sets a field.
- Exec.Exec: assumes that the path is a C string, that its chain covers the file, and that the program is no larger than a page; the bytes are collected in a buffer of the page's size before they become its words, where the code reads them into the page itself.
- Physical memory copies: `memcpy` and `memset` of whole pages are single assignments in Memory and KernelCode; their loops are proved in Memcpy.
- The parts keep separate states: the file tables and the saved registers are not fields of the joint scheduler and memory state, though Exec.Exec acts on all of it, and the key buffer is joined with the scheduler alone. In the joint state of scheduler and memory a key read may or may not sleep.
- The name and extension copied into an FCB: nothing reads them.
- pid_num and the tick counter are unbounded integers.
- Memory of a process is stored and copied in 64-bit words; smaller user stores are not modelled. Exec.ExecReadsFile reads it in bytes.
- `memcmp`, `memset` as byte loops, `checkmm`, `read_root_directory` and `get_file_size`: they would add only easy members.
- Exceptions the handler does not know stop the kernel; a fault in user code is an `exit` of that process.
- Timer interrupts during `init_process`: the runs start after it.
