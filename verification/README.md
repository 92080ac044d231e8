# Verified models of the systems components

This project models the stateful cores of a collection of systems-programming components
written in C, and proves in Dafny what each of them is for. Every component is a model of
its own, with the code's branches, constants and error paths; functions that update fields
or memory are methods of a class over the same fields, tied by their contracts to values
and step relations about which the theorems are proved.

| component | modules |
|---|---|
| boundary-tag heap allocator (`malloc/alloc.c`) | `HeapLayout`, `HeapTiling`, `HeapSteps`, `HeapFacts`, `HeapShape`, `Allocator`, `HeapTheorems`, `HeapRuns` |
| deadlock-resistant mutex (`deadlock_demolition/libdrm.c`) | `Reachability`, `Drm`, `DrmLibrary` |
| memory management unit (`ideal_indirection/mmu.c`) | `MmuModel`, `MmuSteps`, `Mmu`, `MmuRuns`, `MmuAnswers` |
| parallel make (`parallel_make/parmake.c`) | `RuleGraph`, `CycleDetect`, `DfsOrder`, `Workers` |
| queue, semaphore and barrier (`critical_concurrency/`) | `BlockingQueue`, `Semaphore`, `Barrier` |
| file blocks (`finding_filesystems/minixfs.c`) | `MiniFs`, `MiniFsRuns` |
| job scheduler (`savvy_scheduler/libscheduler.c`) | `Scheduler` |
| file server catalogue (`nonstop_networking/server.c`) | `Catalogue` |

`Basics` holds what several of them share. `dafny verify dfyconfig.toml` checks everything.

## What is modelled, and how

**Heap.** Memory is a sequence of cells indexed by address and its length is the program
break. A header field, a footer and a payload byte each occupy the cell at their lowest
address; `STRUCT_SIZE` is 32 and `DATA_SIZE_SIZE` is 8, as on LP64. Three views of one byte
range are kept in agreement by every call: the tiling of the heap by blocks, the doubly
linked list from `head`, and the payloads callers own. `grant` says whether `sbrk` would
succeed. The guard at `malloc/alloc.c:277` adds `STRUCT_SIZE` elements, that is 1024 bytes,
so a free right neighbour near the break is not joined; the model keeps that, and "no two
adjacent free blocks" is not claimed. The word below the heap belongs to somebody else and
is only taken not to be negative when read as a size. Whether a call succeeds depends only
on the shape of the heap (tiling, list and break) and on `grant`, and the run theorem says
so call by call.

**Mutex.** A step is one stretch of code between two lock operations. A thread that has
locked a drm's mutex and not yet recorded it is a state of its own, and the graph is
compared with real waiting, which it lags behind. The graph library is a set of vertices and
a set of edges; what `graph_add_edge` does with an unknown vertex is a parameter.

**MMU.** Frames hold directories, tables or pages. The kernel is a contract: it hands out
free frames, may evict any data pages before that, saving their bytes, never evicts
directories or tables, and fails only when directories and tables fill the memory. `stale`
is what a handed-out frame happens to hold. Dropping any entries when adding one is allowed
to the TLB. Addresses are split by arithmetic on 4096-byte pages and 1024-entry tables.
Which requests are served turns out to depend only on the requests before them and on the
number of frames, whatever the kernel evicts.

**Parallel make.** Rules are identified by name. The recursion of `cycle_detect` carries a
fuel parameter because it does not return on every graph; None means that it has not
returned within that depth, and `ReturnsIff` says exactly when it returns at all. What the
file check and the commands of a rule answer, and what they leave in its file, are arbitrary
functions of what has been left in the other rules' files so far; the files there before the
build are part of these functions. For a build to have one outcome these answers must depend
only on the files of the rules below the rule; `UndeclaredRead` shows what happens
otherwise, and `EveryRunIsSafe` holds either way. A worker keeps `target_mut` from its scan
to its wait while `set_state` broadcasts without it, so a broadcast can be missed;
`NobodySleepsForever` shows that this strands nobody.

**Condition variables.** The wait loops of the queue and the semaphore are modelled with
spurious wake-ups. `barrier_wait` tests nothing when it wakes, so its protocol wakes threads
only by broadcast; `SpuriousAlwaysBreaks` shows that this is needed in every reachable
state.

**File blocks.** Block size and the number of direct blocks are parameters. What
`minixfs_min_blockcount` reserves arrives as an argument that keeps all files' bytes. The
recorded size grows by the bytes written wherever they go
(`finding_filesystems/minixfs.c:223`), so a read-back is complete exactly when the write did
not start past the old size. For the same reason the recorded size can come to exceed what
the blocks hold. The write's contract says when: the new size is covered if and only if the
old size plus the bytes written fits the blocks the file then has, which with exactly the
blocks line 192 asks for is known before the call. `OverwriteOutgrows` builds such a file
for every block size above one byte, and `Read` answers `wild` for exactly the ranges that
leave the blocks, where the source follows an unassigned block number.

**Scheduler.** Times are reals, the integer arrival time is their floor, and the priority
queue hands out some least job. Round robin is fair to a waiting job exactly while the jobs
whose quanta expire yield to it: they are stamped later than it, or at the same time after
arriving later. Strictly increasing times guarantee that; with a repeated time a job can
wait for ever, and a run that gets there is given. `WaitAccounts` is the equation behind both:
each dispatch uses up one job ahead of the waiting one, and only arrivals and quanta that do
not yield put one there. The remaining time that PSRTF ranks by is not what is left of the
running time: the first quantum is counted from -1 and every later one from the first start
(`savvy_scheduler/libscheduler.c:160-165`); `RecordsAreTrue` gives it exactly and
`OverCharged` an instance.

**Catalogue.** A request is one step on bytes already received, and names identify files. A
PUT of the wrong size over an existing file removes the file but leaves its name in the
vector and its size in the dictionary; that is the one way in which LIST can become wrong,
and it stays wrong from then on.

## Model

| member | source | states |
|---|---|---|
| HeapTheorems.WalkVisitsBlocks | malloc/alloc.c:115-164 | from the start of any heap that meets the invariant, steps of header, stored size and footer visit exactly the blocks, in ascending order, and end exactly at the break |
| HeapTheorems.ListIsExactlyTheFreeBlocks | malloc/alloc.c:26-46 | the list from `head` reaches NULL, meets every block whose `free` word is 1 exactly once and nothing else, and its links are mutually inverse |
| HeapTheorems.PayloadsAreSafe | malloc/alloc.c:166-192 | a live payload overlaps no other live payload and no header or footer of any block |
| HeapRuns.Run | malloc/alloc.c:71-386 | over any sequence of malloc, calloc, realloc, free and stores, buffers are independent, calloc zeroes, realloc keeps what fits and no live block is left without an owner; every call changes the heap as its step says and returns a pointer exactly when a free block has room, the system grants more, or a shrinking realloc has room already; between any two calls the blocks tile the heap and the list holds exactly the free ones |
| HeapRuns.FreedIsReusable | malloc/alloc.c:166-281 | a malloc right after a free, of at most the freed size, succeeds although the system grants nothing, whatever the free merged |
| HeapRuns.JoinedIsReusable | malloc/alloc.c:166-281 | a malloc right after a free gets, without the system, as much as the freed block, a free block right before it and a free block right after it (1024 bytes or more below the break) hold together with the overhead between them |
| HeapRuns.RestIsReusable | malloc/alloc.c:166-192 | what a malloc leaves of the free block that served it, less the overhead, serves the next malloc without the system |
| HeapShape.FreeJoins | malloc/alloc.c:212-281 | a free makes exactly one free block out of the freed one and its free neighbours, as long as all of them and the overhead, and every other block stays as it was |
| HeapShape.FreeRelists | malloc/alloc.c:197-261 | joined with a free block before it, the freed block takes no place in the list; with one after it only, it takes that one's place; alone it goes in front |
| HeapShape.MallocSpares | malloc/alloc.c:166-192 | a malloc that succeeds wastes at most the overhead, leaves the rest of a listed block to later requests, and moves the break exactly when no free block is large enough |
| HeapShape.MallocTakesFirst | malloc/alloc.c:102-113 | every block listed before the one that a malloc takes is too small |
| HeapShape.ShrinkGivesBack | malloc/alloc.c:329-359 | a realloc to a size that fits stays where it is; the rest of a block above 256 MiB is free for later requests, a smaller block stays as it is |
| HeapShape.MoveGivesBack | malloc/alloc.c:361-369 | after a realloc that moves a buffer its old room serves later requests |
| HeapShape.MallocSucceedsExactly | malloc/alloc.c:166-192 | malloc returns a pointer if and only if the size is not 0 and a free block has room or the system grants more |
| HeapShape.MallocIsDeterministic | malloc/alloc.c:102-113 | the heap's shape and the grant decide the pointer and the new shape: a first fit is the only one |
| HeapRuns.AddedKept | malloc/alloc.c:166-192 | a new payload keeps every promise already made to the program |
| HeapRuns.MovedKept | malloc/alloc.c:356-386 | a reallocated buffer keeps the bytes that fit and every other buffer stays as it was |
| Allocator.Heap.DeleteDataNode | malloc/alloc.c:26-46 | unlinking rewires exactly the two neighbours' links and moves `head` when the node was first |
| Allocator.Heap.FindFreeGetAddr | malloc/alloc.c:102-113 | the result is the first listed block that is large enough, or NULL when none is |
| Allocator.Heap.ExpandHeap | malloc/alloc.c:115-135 | on success one live block of the requested size is appended at the old break and pushed on the list; on failure nothing changes |
| Allocator.Heap.RelistSplit | malloc/alloc.c:137-149 | the replacement takes the node's place between its list neighbours, or becomes `head` |
| Allocator.Heap.SplitMetadata | malloc/alloc.c:151-164 | a listed block is cut into a live low part and a free high part that takes its place in the list, with all headers and footers right |
| Allocator.Heap.Malloc | malloc/alloc.c:166-192 | first fit, split only when the rest exceeds the overhead, otherwise extension; the caller gets a fresh payload of at least the size asked for and no other payload changes; NULL changes no payload |
| Allocator.Heap.MergeBoth | malloc/alloc.c:212-220 | the left block's size and the right block's footer become the sum of the three, and the right block leaves the list |
| Allocator.Heap.MergeWithAfter | malloc/alloc.c:223-232 | the block swallows its right neighbour and takes over its place in the list |
| Allocator.Heap.MergeWithBefore | malloc/alloc.c:234-238 | the left neighbour swallows the block |
| Allocator.Heap.MergeGetAddrs | malloc/alloc.c:240-261 | exactly the adjacent free blocks that the guards admit are joined; otherwise the block is pushed in front of the list |
| HeapFacts.PhysicalNeighbours | malloc/alloc.c:268-277 | the neighbours computed from the footer below and the size above, when the guards let them through, are exactly the adjacent blocks, and their `free` words tell whether those are free |
| Allocator.Heap.Free | malloc/alloc.c:263-281 | the block's payload leaves the owners' view and nothing else does; tiling and list change as the four merge cases say |
| Allocator.Heap.Calloc | malloc/alloc.c:71-79 | succeeds exactly when num * size bytes can be served, and then adds a payload of as many zeroes; a failed call changes no payload |
| Allocator.Heap.SplitGetAddrForReduction | malloc/alloc.c:329-354 | only a block above 256 MiB with room for another is cut; the rest becomes a free block in front of the list, and the kept bytes are unchanged |
| Allocator.Heap.IncreaseSize | malloc/alloc.c:361-369 | exactly when the new size can be served the bytes move to a larger fresh payload and the old one is freed; otherwise no payload changes |
| Allocator.Heap.Realloc | malloc/alloc.c:371-386 | NULL allocates, size 0 frees, a shrinking call always stays in place, a growing one moves; it fails only where nothing is big enough and the system grants nothing; the first min(old, new) bytes are kept and failure changes no payload |
| HeapSteps.TakeSplit | malloc/alloc.c:183-187 | handing out the low part of a listed block keeps tiling, headers, list and all live payloads |
| HeapSteps.FreeIntoBoth | malloc/alloc.c:212-220 | joining three blocks keeps tiling, headers, list and all live payloads |
| Drm.WaitBeginKeeps | deadlock_demolition/libdrm.c:77-107 | the first critical section of a wait keeps the graph in agreement with the threads, and acyclic |
| Drm.WaitRecordKeeps | deadlock_demolition/libdrm.c:95-101 | turning the wait edge into an ownership edge, however late, closes no cycle |
| Drm.PostKeeps | deadlock_demolition/libdrm.c:36-51 | a post keeps the graph in agreement with the mutexes |
| Drm.OutDegreeAtMostOne | deadlock_demolition/libdrm.c:90-98 | every vertex of the wait graph has at most one edge out |
| Drm.NoRealCircularWait | deadlock_demolition/libdrm.c:77-107 | no circular wait of threads and mutexes ever forms, although ownership is recorded late |
| Drm.GraphTellsTruth | deadlock_demolition/libdrm.c:92-98 | for a thread outside the library the graph leads from a drm to it exactly when real waiting does |
| Drm.WaitRefusedExactly | deadlock_demolition/libdrm.c:84-106 | a wait returns 0 exactly when the caller holds the drm already or waiting would close a real circular wait |
| Drm.PostDoneExactly | deadlock_demolition/libdrm.c:36-51 | a post returns 1 exactly for the thread that holds the drm's mutex |
| Drm.ChainEnds | deadlock_demolition/libdrm.c:77-107 | the wait chain of a blocked thread ends at a free drm or at a thread not blocked on a drm |
| Drm.WaitsEndHolding | deadlock_demolition/libdrm.c:36-104 | over every run a wait that is not refused comes back only with the mutex in hand and on record, and a mutex leaves its holder only by the holder's own post |
| Drm.EveryRunIsDeadlockFree | deadlock_demolition/libdrm.c:18-107 | in every state of every run of any number of threads the graph and real waiting are acyclic, out-degrees are at most one, and recorded owners hold their mutexes |
| DrmLibrary.Library.HasCycle | deadlock_demolition/libdrm.c:53-75 | with at most one edge out of each vertex the search terminates and answers whether a cycle is reachable, although it discards its visited set on every return |
| DrmLibrary.Library.DrmWaitBegin | deadlock_demolition/libdrm.c:77-94 | the code up to the first unlock is the protocol's step, and a refused wait leaves the edges as they were; for a drm that is not in the graph this holds, and the invariant survives, if and only if `graph_add_edge` adds missing vertices |
| DrmLibrary.Library.DrmInit | deadlock_demolition/libdrm.c:18-34 | the code is the protocol's step for a drm at an address not in use |
| DrmLibrary.Library.DrmWaitLock | deadlock_demolition/libdrm.c:94 | taking the drm's own mutex is the protocol's step between the two critical sections |
| DrmLibrary.Library.DrmWaitRecord | deadlock_demolition/libdrm.c:95-101 | the second critical section is the protocol's step |
| DrmLibrary.Library.DrmPost | deadlock_demolition/libdrm.c:36-51 | the code is the protocol's step |
| MmuRuns.Run | ideal_indirection/mmu.c:57-309 | every request of any sequence is answered; whether it is served, faults or finds no frame is decided by the requests before it and the number of frames, whatever is evicted; reads return the last bytes their process wrote there |
| MmuAnswers.ServedIsPermitted | ideal_indirection/mmu.c:112-178 | over every run a write is carried out only at an address of a segment that may be written, and a read answered only in one that may be read |
| MmuAnswers.OnlyDataIsWritten | ideal_indirection/mmu.c:123-188 | after any requests every byte ever written lies in the stack, bss, data or testing segment: no text changes |
| MmuAnswers.AnsweredExactly | ideal_indirection/mmu.c:57-277 | with a frame for every directory and table that may be asked for and one more, accesses to data are served, text is read and not written, everything else is a segmentation fault, and no request lacks a frame |
| MmuModel.SpareFrames | ideal_indirection/mmu.c:202-309 | the frames left for pages are the pool less one per directory and one per present directory entry; a free frame or a present page needs one, and with neither there is none |
| MmuRuns.StoredHolds | ideal_indirection/mmu.c:181-187 | a write changes exactly the written bytes of the flat memory of its process |
| MmuRuns.TouchedHolds | ideal_indirection/mmu.c:100-107 | bringing a page in keeps every byte ever written |
| Mmu.MMU.LookupPte | ideal_indirection/mmu.c:82-98 | hit or miss, the entry returned is the one a walk of the current process's tables reaches; it fails exactly when a table is missing and no frame is left for it; misses and table faults are counted |
| Mmu.MMU.Translate | ideal_indirection/mmu.c:77-107 | succeeds exactly when there is a frame for the page and one for a missing table; then the page is present at the entry a fresh walk reaches; no other page's bytes change, all TLB entries still equal such walks, and faults are counted on success and failure |
| Mmu.MMU.Reach | ideal_indirection/mmu.c:65-107 | the common beginning of an access: outcome, tables, TLB misses and page faults are those the state before the call determines |
| Mmu.MMU.SwitchTo | ideal_indirection/mmu.c:65-68 | after a change of process no translation of the old one survives |
| Mmu.MMU.Read | ideal_indirection/mmu.c:57-121 | with frames enough, exactly a permitted read returns the page's bytes at the offset and exactly a forbidden one counts a segmentation fault; it lacks a frame exactly as the state before says; the entry is marked accessed, all counters are given, and the same page again would count nothing |
| Mmu.MMU.Write | ideal_indirection/mmu.c:123-188 | the same for a write, which stores the bytes at the offset of its own page, marks the entry accessed and dirty, and changes no byte seen by another process or page |
| Mmu.MMU.AddProcess | ideal_indirection/mmu.c:202-277 | a new process gets a directory, a table and its two testing pages exactly when three frames can be spared, and no other page's bytes change |
| Mmu.MMU.AddDirectory | ideal_indirection/mmu.c:204-208 | for any pid: every frame still belongs to exactly one slot if and only if the pid had no directory; otherwise the old directory's frame is lost and no old translation of the pid is right any more |
| Mmu.MMU.RemoveProcess | ideal_indirection/mmu.c:279-309 | exactly the frames the process owned become free, each once; its pages and swap files are gone and other processes' pages are as they were |
| MmuSteps.EvictKeeps | ideal_indirection/mmu.c:100-107 | eviction keeps every page's bytes visible and every frame free or owned by exactly one slot |
| MmuSteps.RemoveProcessKeeps | ideal_indirection/mmu.c:279-309 | after teardown every frame is free or owned by exactly one slot again |
| CycleDetect.Detector.CycleDetect | parallel_make/parmake.c:33-57 | the method, with its shared visited set, computes the recursive specification and leaves no set behind when it returns |
| CycleDetect.AnswerIsExact | parallel_make/parmake.c:33-57 | whenever it returns, from any visited set of vertices on the way, the answer is whether a cycle is reachable |
| CycleDetect.AcyclicReturns | parallel_make/parmake.c:33-57 | above no cycle the recursion is no deeper than the number of rules |
| CycleDetect.ReturnsIff | parallel_make/parmake.c:33-57 | it returns if and only if no cycle is reachable or the search runs into a cycle made of first neighbours |
| CycleDetect.NeverReturns | parallel_make/parmake.c:33-57 | a rule that depends on a leaf and then on itself keeps it recursing for ever |
| DfsOrder.Sorter.GetAllVertexDfs | parallel_make/parmake.c:60-75 | on an acyclic rule it terminates and adds exactly the rules below it, each once and after all its dependencies |
| DfsOrder.Sorter.OrderTargets | parallel_make/parmake.c:256-259 | over several targets the list is exactly the rules reachable from them |
| Workers.CheckDependencies | parallel_make/parmake.c:90-106 | 1 exactly when every dependency is settled without failure, and otherwise -1 or 0 as the first dependency that is not says |
| Workers.Make.Scan | parallel_make/parmake.c:156-198 | the scan claims the first rule that is not waiting, exits on an empty list, or goes to sleep |
| Workers.Make.FinishRule | parallel_make/parmake.c:200-212 | a claimed rule is checked, run and settled, or settled as failed without running |
| Workers.ScanFindsReady | parallel_make/parmake.c:173-198 | a scan of a non-empty list comes back empty-handed only while some claimed rule has not been settled |
| Workers.NobodySleepsForever | parallel_make/parmake.c:194-213 | in every reachable state, if any worker waits then some worker is up, and with an empty list one that holds a rule: a missed broadcast strands nobody |
| Workers.LeftMeansBuilt | parallel_make/parmake.c:156-216 | when all workers have left, a rule is good if and only if for everything below it the file check says 1, or says 0 and the commands succeed, with the files there are; it has failed otherwise; and its commands were run if and only if the check says 0 and everything strictly below it is good |
| Workers.ClaimKeeps | parallel_make/parmake.c:173-190 | a claim takes one rule off the list for one worker, with a verdict that its dependencies bear out |
| Workers.SettledAsSequential | parallel_make/parmake.c:156-213 | in every interleaving a settled rule has the state and the file that building the rules one after the other would give it, and its commands were run exactly if they would be |
| Workers.BuildIsDeterministic | parallel_make/parmake.c:156-213 | once the list is empty and no rule is held, states, files and the set of rules whose commands ran are those of the sequential build, whatever the interleaving, although checks and commands look at what was built before |
| Workers.AnyTwoBuildsAgree | parallel_make/parmake.c:156-216 | any two builds, with any numbers of workers, interleavings and dependency orders, agree on every rule that both have settled |
| Workers.SequentialIsARun | parallel_make/parmake.c:156-216 | one worker alone completes the build rule by rule and leaves, so the sequential outcome is one that a run attains |
| Workers.UndeclaredRead | parallel_make/parmake.c:156-213 | a rule that looks at a file of a rule it does not depend on: two workers can settle it differently from the sequential build |
| Workers.FinishTold | parallel_make/parmake.c:200-212 | settling a rule changes no answer about another rule that is running or settled with good dependencies |
| Workers.EveryRunIsSafe | parallel_make/parmake.c:156-213 | in every run a rule's commands start at most once and only with all dependencies good; a rule with a failed dependency never starts and never ends up good |
| Workers.ClaimedOnceSettledOnce | parallel_make/parmake.c:82-87 | a rule leaves the list once, is held when it does, and its state is written once |
| Workers.ClaimsFirstReady | parallel_make/parmake.c:173-190 | the rule that is taken off the list has its dependencies good or one of them failed, and every rule listed before it still waits for one |
| Workers.WorkersFollowThrough | parallel_make/parmake.c:156-213 | a worker that has claimed a rule stays with it until the rule is settled and then starts over; one that has left stays away |
| BlockingQueue.Queue.TryPush | critical_concurrency/queue.c:70-95 | the linked list gains exactly the value at its end, unless a positive bound is reached; the critical section is the protocol's step |
| BlockingQueue.Queue.TryPull | critical_concurrency/queue.c:97-122 | the linked list loses exactly its oldest value, unless it is empty; the critical section is the protocol's step |
| BlockingQueue.NextKeeps | critical_concurrency/queue.c:70-122 | every step of every thread keeps the first-in-first-out split of what was pushed, the bound, and a reason for every sleeper |
| BlockingQueue.EveryRunIsFifo | critical_concurrency/queue.c:70-122 | over every run pulled values are a prefix of pushed ones, the bound is respected, and no thread sleeps with its condition satisfied |
| BlockingQueue.EveryCallTakesEffect | critical_concurrency/queue.c:70-122 | over every run, whatever the wake-ups, a thread in push leaves only by adding its own value at the end, one in pull only by taking the oldest, until then each stays in its call, and nothing else is pushed or pulled |
| Semaphore.Semamore.TryWait | critical_concurrency/semamore.c:29-39 | the critical section is the protocol's step and the value counts completed calls |
| Semaphore.Semamore.TryPost | critical_concurrency/semamore.c:46-54 | the same for a post |
| Semaphore.EveryRunCounts | critical_concurrency/semamore.c:16-54 | in every run the value is initial + posts - waits, and sleepers sleep only at 0 or at the maximum |
| Semaphore.EveryCallTakesEffect | critical_concurrency/semamore.c:29-54 | over every run, whatever the wake-ups, a thread in semm_wait leaves only by taking one, one in semm_post only by adding one, until then each stays in its call, and nothing else changes the value |
| Semaphore.StaysInRangeExactly | critical_concurrency/semamore.c:16-54 | the value stays in [0, max_val] on all runs if and only if it starts there |
| Barrier.Barrier.Wait | critical_concurrency/barrier.c:38-54 | every n-th arrival goes straight through and all others sleep; the critical section is the protocol's step |
| Barrier.EnterKeeps | critical_concurrency/barrier.c:38-54 | an arrival keeps the sleepers equal to the threads in the unfinished use, and every finished use at n threads |
| Barrier.EveryRunMeets | critical_concurrency/barrier.c:38-54 | over every run a thread may leave a use only once n distinct threads have entered it, and a sleeper's use is still short of n |
| Barrier.EveryThreadInTurn | critical_concurrency/barrier.c:38-54 | over every run a thread is counted in the use it enters, sleeps until exactly that use is complete, and only then leaves |
| Barrier.SpuriousAlwaysBreaks | critical_concurrency/barrier.c:43-45 | in every reachable state a spurious wake-up of any sleeper lets it leave a use that fewer than n threads entered |
| MiniFs.FileSystem.Locate | finding_filesystems/minixfs.c:205-212 | direct and indirect lookup both give the file's i-th block |
| MiniFs.FileSystem.Write | finding_filesystems/minixfs.c:183-227 | the block loop is one update of the flat file at the offset, size grows by the bytes written, no other file's bytes change, and failure changes no file's bytes; the new size is covered by blocks exactly when the old one plus the bytes written is |
| MiniFs.AskedExactly | finding_filesystems/minixfs.c:192 | the number of blocks asked for before a write is the least that holds more than the write needs |
| MiniFs.FileSystem.Read | finding_filesystems/minixfs.c:242-273 | the block loop is one slice of the flat file, cut off at the size, exactly when the range stays in the file's blocks; otherwise the loop meets an unassigned block number |
| MiniFs.WriteTurn | finding_filesystems/minixfs.c:214-220 | each turn extends the written range by its chunk and leaves all else, tables included, as it was |
| MiniFs.OthersKept | finding_filesystems/minixfs.c:204-221 | writes to one file's blocks change no byte of another |
| MiniFs.ReadBack | finding_filesystems/minixfs.c:223-246 | reading the written range back gives the written bytes cut off at the size, and all of them if and only if the write did not start past the old size |
| MiniFs.ReadAfterWrite | finding_filesystems/minixfs.c:204-271 | any later read shows the written bytes inside the written range and the old ones outside |
| MiniFsRuns.EveryRunRemembers | finding_filesystems/minixfs.c:183-273 | over any reads and writes of any files, with blocks reserved in between, each file holds at every position the last byte written there, or the one it started with, and its size counts the bytes written |
| MiniFsRuns.ReadsReturnLastWrites | finding_filesystems/minixfs.c:229-273 | a read anywhere in a run returns the last bytes written |
| MiniFsRuns.AppendsConcatenate | finding_filesystems/minixfs.c:192-223 | a file that is only ever appended to, its blocks being reserved as it grows, holds everything written to it in order, and its blocks cover its size |
| MiniFsRuns.OverwriteOutgrows | finding_filesystems/minixfs.c:192-223 | for every block size above one byte and every number of direct blocks: a file system with a file of one full block whose recorded size exceeds its block after one byte is overwritten, so that reading it leaves its blocks |
| Scheduler.ComparersOrder | savvy_scheduler/libscheduler.c:64-132 | every comparer orders jobs by its scheme's key and then by arrival: antisymmetric, transitive and total |
| Scheduler.NoJobLost | savvy_scheduler/libscheduler.c:136-185 | after any calls every admitted job is in exactly one of queue, processor and finished |
| Scheduler.NeverIdlesInVain | savvy_scheduler/libscheduler.c:153-175 | an expired quantum leaves the processor idle only when there is no job to run |
| Scheduler.ExpiryExactly | savvy_scheduler/libscheduler.c:153-175 | when a quantum expires, a running job stays under FCFS, PRI and SJF; otherwise exactly a job that is least by key and arrival, among the queue and under PPRI, PSRTF and RR the job that was running, runs next, and the others are the queue |
| Scheduler.RecordsAreTrue | savvy_scheduler/libscheduler.c:136-165 | over every run a job's arrival, priority and running time are those it was admitted with, its last stamp is its last quantum, and its start and remaining time follow from its quanta |
| Scheduler.OverCharged | savvy_scheduler/libscheduler.c:160-165 | two successive quanta of length 1 take t + 3 and not 2 off the remaining time, t being the end of the first |
| Scheduler.RoundRobinIsFair | savvy_scheduler/libscheduler.c:110-175 | while a job waits and is yielded to, at most as many jobs are dispatched as were ahead of it plus arrived meanwhile, and none of them twice |
| Scheduler.WaitAccounts | savvy_scheduler/libscheduler.c:136-185 | on every run during which a job waits, whatever the times: jobs dispatched plus jobs still ahead of it are the jobs that were ahead of it plus arrivals that landed there plus expired quanta that did not yield |
| Scheduler.YieldsExactly | savvy_scheduler/libscheduler.c:160-173 | an expiring quantum puts no job ahead of a waiting one if and only if its job is stamped later, or at the same time after arriving later |
| Scheduler.TimelyIsFair | savvy_scheduler/libscheduler.c:153-175 | strictly increasing times make every job yield to every waiting one |
| Scheduler.ReachableStamps | savvy_scheduler/libscheduler.c:136-175 | every state reached with strictly increasing times meets what the fairness bound asks for |
| Scheduler.RepeatedTimeStarves | savvy_scheduler/libscheduler.c:153-175 | when a quantum expires at the time the only waiting job was stamped with, an earlier arrival is the only job that can be dispatched, and the waiting one is left where it was |
| Scheduler.StarvesForever | savvy_scheduler/libscheduler.c:153-175 | from there any number of dispatches can happen while the job waits with nobody ahead of it and nobody arriving |
| Scheduler.StarvationIsReachable | savvy_scheduler/libscheduler.c:136-175 | two jobs and three quanta lead from the start to such a state |
| Scheduler.Scheduler.NewJob | savvy_scheduler/libscheduler.c:136-151 | the code is the state machine's arrival |
| Scheduler.Scheduler.QuantumExpired | savvy_scheduler/libscheduler.c:153-175 | the code is the state machine's step for every scheme, on an idle and on a busy processor, and returns the job that runs next |
| Scheduler.Scheduler.JobFinished | savvy_scheduler/libscheduler.c:177-185 | turnaround grows by the time since arrival, turnaround minus waiting by the running time, and response by start minus arrival |
| Catalogue.Server.Put | nonstop_networking/server.c:328-378 | a PUT of the announced size stores the body and lists a new name once; any other size removes the file and leaves its name |
| Catalogue.Server.List | nonstop_networking/server.c:419-434 | the announced length is the length of the text sent, and the text is that of the name vector |
| Catalogue.Server.LocalfileWrite | nonstop_networking/server.c:516-534 | the chunks sent make up exactly the announced prefix of the file |
| Catalogue.Server.Get | nonstop_networking/server.c:435-465 | a present file is sent whole under its true size, which is always on record |
| Catalogue.Server.Delete | nonstop_networking/server.c:466-498 | deleting a present file always finds its entry and erases the first one |
| Catalogue.Server.Run | nonstop_networking/server.c:327-500 | over any requests the directory is what the requests say, every answer is the one for the directory at that time, and the name vector holds each present file once plus one leftover per spoiling PUT |
| Catalogue.ListFaithfulExactly | nonstop_networking/server.c:363-376 | LIST names each present file once and nothing else if and only if no PUT of the wrong size has hit an existing file |
| Catalogue.SplitJoined | nonstop_networking/server.c:425-432 | splitting the text at newlines gives back the names, in order, if there are any and none contains a newline |
| Catalogue.ClientListExactly | nonstop_networking/server.c:363-434 | what a client reads from the reply to LIST is each present file once and nothing else if and only if no PUT of the wrong size has hit an existing file, and no present file is missing from it in any case |
| Catalogue.OneSpoilingPut | nonstop_networking/server.c:363-376 | after a PUT and a wrong-sized PUT of one name the file is gone and LIST names it |
| Catalogue.PresentFilesAreListed | nonstop_networking/server.c:373-376 | whatever happened, a present file is in the list |
| Catalogue.LastPutDecides | nonstop_networking/server.c:327-498 | the last PUT or DELETE of a name decides whether a GET finds it and what it gets |
| Catalogue.GetAnswersLastPut | nonstop_networking/server.c:435-465 | a GET is answered with the bytes of the last PUT of that name under their number, or with "no such file" if that PUT was of the wrong size or the last to touch the name was a DELETE |
| Catalogue.NeverPutNeverThere | nonstop_networking/server.c:327-498 | a name that no PUT and no DELETE has ever mentioned is not there, whatever else was requested |
| Catalogue.JoinLength | nonstop_networking/server.c:421-432 | the joined names are as long as the running total of lengths plus the separators |

## Left out

- Heap: alignment, overflow of sizes and of calloc's multiplication, other users of `sbrk`, and how a failing `sbrk` is recognised at `malloc/alloc.c:119`; a field wider than one cell is not seen byte by byte.
- Mutex: `drm_destroy` and the failure of `malloc` in `drm_init`; one thread using another's id; the run of the protocol after a drm unknown to the graph has been waited for without being added.
- Mmu.MMU.AddProcess: is for a pid without a directory; what the first lines do for a pid that has one is `AddDirectory`, and the model does not go on from the state with the lost frame.
- MMU: `tlb.c`, `kernel.c` and the segment helpers are not part of this model; the `read_write` and `user_supervisor` bits and `MAX_PROCESS_ID` are left out, segments are half-open intervals that do not move, and an access that gets no frame ends there.
- Workers.BuildIsDeterministic: is for rules whose checks and commands look, of all that a build changes, only at the files of rules they depend on, directly or not, which is what a makefile declares; what commands of different rules do to other files, and times of day, are not modelled. A file stands for what later checks and commands can tell about it.
- Workers.NobodySleepsForever: says that the workers are never all asleep or gone while one sleeps, not that a fair scheduler ends the build; commands may run for ever.
- Parallel make: `vector_check`, which advances its index twice, so targets are taken to be acyclic; what `check_file_dependencies` and `system` compute.
- CycleDetect.Detector.CycleDetect: the fuel bounds the depth of the recursion; a call cut off by it is one that has not returned yet.
- Queue, semaphore and barrier: destruction, and failures of the pthread calls; signed wrap-around of an out-of-range semaphore value.
- MiniFs.FileSystem.Read: promises nothing about the result of a read that follows an unassigned block number, beyond saying exactly when that happens.
- File blocks: path lookup, creation of inodes, permissions, timestamps, virtual paths, and the truncation of the block count to `int`.
- Scheduler: floating-point rounding and the averages, which divide the totals by the number of jobs.
- Catalogue.ClientListExactly: is for files put under names that are not empty and hold no newline; the header line that carries a name ends at its first newline, and an empty name is the directory itself, which cannot be opened for writing.
- Catalogue: sockets, epoll, header parsing, error texts and hard read failures; two different names for one file, and names longer than the buffers.
- The shell, map-reduce, dd, chat, password-cracker, memory-checker and vector programs: process and printing plumbing, or container facts that are simpler than those above.
