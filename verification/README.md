# Verified models of bionic's allocator, locks and linker

This project models the parts of Android's bionic C library and dynamic linker whose correctness rests on
invariants that span many operations, and proves those invariants in Dafny. `dafny verify dfyconfig.toml` checks
all of it.

**Allocator** (`dlmalloc.c`). One contiguous segment, 32-bit sizes, 8-byte alignment, no footers.
`Words`, `BinIndex` and `BinMap` give the word-level tricks (`compute_tree_index`, `least_bit`, `left_bits`,
`compute_bit2idx`) and show that they agree with a scan. `Digits`, `Rings`, `Trie`, `TrieSearch` and `TreeBins` model
the tree bins: link words on one side, an abstract map from trie paths to rings of equal-sized chunks on the other.
`SmallBins` does the same for the small bins, `Tiling` for the boundary tags. `Layout` joins them into the heap
invariant, with the set of chunks that are momentarily in no bin made explicit. `Arena` is the class with `Malloc`,
`Free` and `Memalign`; `Payload` says what callers get: whatever they write into their blocks leaves the heap
consistent, and no call changes a word of a block that stays in use. `Alignment` has the arithmetic of
`internal_memalign`.

**Locks** (`pthread.c`, `pthread-rwlocks.c`). `NormalMutex`, `RecursiveMutex` (with `MutexWord`) and `Once` are step
systems: any number of threads, one atomic word, sleepers on a futex, one step per atomic operation, sequentially
consistent memory, spurious wakeups allowed. `RwLock` takes one step per critical section of the lock's internal
monitor. Safety, the answers of calls and the absence of lost wakeups hold in every state of every run; no call spins,
and one that nothing holds up ends after a fixed number of its own steps.

**Linker** (`linker.c`, `dlfcn.c`). `SoPool` models the pool of library records on its two lists, `LibGraph` the
dependency graph with its reference counts and link order, `LibInit` the log of initialiser runs over the whole life of
the process, `LibRecords` what the records' names and slots say. `LibState` joins these into the linker's invariant and
shows that each elementary step keeps it; `LibChange` says what whole operations leave alone, and when libdl survives.
`Linker` is the class with recursive loading, initialisers, recursive unloading and the `dlopen`/`dlclose` interface,
over an arbitrary file system and an arbitrary series of load failures, which are both given (`LibFaults`): a request that
fails does so for a reason. `Lists` has what several parts need about sequences.

**Deadlock predictor** (`pthread_debug.c`). `LockGraph` has the graph theory, `DeadlockPredictor` the class.

**Word copy and timers.** `MemmoveWords` copies in place on an array; `Timers` has the timespec arithmetic and the timer
thread's loop.

Points where the code decides:

- A trie path in bin `i` has at most `i / 2 + 4` digits, and 29 in the last bin, which is open-ended; the comment at
  `bionic/libc/bionic/dlmalloc.c:1970` speaks of 6 to 21.
- The loop that rounds an alignment up to a power of two ends if and only if the alignment is at most 2^31
  (`Alignment.RoundingEnds`); `Memalign` therefore requires that.
- For a request padded to 248 bytes, a 256-byte tree chunk would leave no remainder, but `dv` is preferred to it when it
  is large enough (`Arena.WholeBelow`).
- `libdl_info` starts with a reference count of 0 and has no dynamic section, so it must never be the library to unload.
  Closing a handle keeps it exactly if a chain of slots still leads to it from something held or from a library that
  failed, or if it cannot be reached from the handle at all: `Linker.Linker.Dlclose` asks for that, and `LibChange.GuardNeeded`
  shows that otherwise its count drops from positive to zero. Over whole runs it is enough that such a chain starts at a
  reference that is never given up, as it does for every executable that needs libc, which needs libdl
  (`bionic/libc/Android.mk:710-718`). `Linker.Linker.Start` shows when: exactly if the count of libdl is positive once the
  process has started. If it is not, opening and closing libdl once is the failing sequence (`LibChange.LibdlUnguarded`).
- A library whose linking fails keeps its record and the references its patched slots stand for, although its memory is
  unmapped (`bionic/linker/linker.c:1188`): what it needs stays loaded for good (`Linker.Serve`).
- A library whose final memory protection fails is marked both linked and failed; it is never handed out.
- An unlock of a reader/writer lock does not say which hold it gives up; the lock stays its writer's until the thread's
  last unlock, so the holds for writing are taken to go last.
- Equal small chunks are used last in, first out, equal tree chunks first in, first out (`Arena.FirstInLine`).
- The initialisers of preloads run only if something needs the library or opens it.
- The executable's record carries the path it was started with, so it alone may share a name with another record
  (libdl's).

The link words of small and of tree chunks are kept in two maps; no chunk is in both kinds of bin. Bin headers and tree
slots have negative addresses, chunks positive ones. A head word the allocator has never written reads as an arbitrary
value. The memory that `MemmoveWords` copies in can be changed only by 16-bit and 32-bit copies, which are logged.

## Model

| member | source | states |
|---|---|---|
| `BinIndex.TopBitIsLog` | bionic/libc/bionic/dlmalloc.c:2605-2622 | the shift-and-mask stages compute the position of the highest bit of every nonzero 16-bit value |
| `BinIndex.TreeIndexBrackets` | bionic/libc/bionic/dlmalloc.c:2605-2637 | the computed tree index brackets every size of at least 256 between consecutive `minsize_for_tree_index` values |
| `BinIndex.TreeIndexUnique` | bionic/libc/bionic/dlmalloc.c:2605-2637 | the computed index is the only bin whose bounds contain the size, so it equals a linear scan |
| `BinIndex.BinOrder` | bionic/libc/bionic/dlmalloc.c:2634-2637 | every size of a lower bin is smaller than every size of a higher one |
| `BinIndex.KeyStep` | bionic/libc/bionic/dlmalloc.c:2629-2632 | the sign bit of the size shifted by `leftshift_for_tree_index` plus the depth is the next digit of the size's path |
| `BinIndex.KeyInjective` | bionic/libc/bionic/dlmalloc.c:1947-1958 | two sizes of a bin with the same digits are equal |
| `BinIndex.KeyOrder` | bionic/libc/bionic/dlmalloc.c:1947-1958 | the first differing digit of two sizes of a bin decides their order |
| `BinMap.MarkClear` | bionic/libc/bionic/dlmalloc.c:2642-2651 | marking and clearing a bin set and clear its own bit and no other |
| `BinMap.Bit2IdxOfPower` | bionic/libc/bionic/dlmalloc.c:2668-2680 | `compute_bit2idx` of a one-bit word is the position of that bit |
| `BinMap.LeastIndexIsLeast` | bionic/libc/bionic/dlmalloc.c:2668-2683 | `least_bit` followed by `compute_bit2idx` gives the least marked bin |
| `BinMap.LeastIndexAbove` | bionic/libc/bionic/dlmalloc.c:2668-2689 | with `left_bits` in front, the least marked bin above a given one; the word is 0 exactly if there is none |
| `BinMap.FitBin` | bionic/libc/bionic/dlmalloc.c:5546-5552 | the remainderless choice: the bin itself if marked, else the next one if marked, else neither |
| `BinMap.NextBin` | bionic/libc/bionic/dlmalloc.c:5563-5570 | the first marked bin above, at least two further on, or none from there to the end |
| `Rings.CycleInsert` | bionic/libc/bionic/dlmalloc.c:4245-4249 | linking a chunk in behind the first one gives the circular list with exactly that chunk added |
| `Rings.CycleRemove` | bionic/libc/bionic/dlmalloc.c:4256-4284 | closing the gap gives the circular list with exactly that chunk removed |
| `Rings.AgesInserted` | bionic/libc/bionic/dlmalloc.c:4360-4366 | a chunk linked into a ring is the youngest of its size |
| `Rings.AgesRemoved` | bionic/libc/bionic/dlmalloc.c:4398-4408 | whichever chunk leaves a ring, the others keep their order of age; when the first leaves, the next oldest is first |
| `SmallBins.Init` | bionic/libc/bionic/dlmalloc.c:4620-4627 | the small bins start valid and empty |
| `SmallBins.Insert` | bionic/libc/bionic/dlmalloc.c:4234-4250 | keeps every list circular, of one size, and marked exactly when nonempty; adds the chunk at the front of its own list |
| `SmallBins.Unlink` | bionic/libc/bionic/dlmalloc.c:4256-4284 | keeps the same and removes exactly the given chunk, the others staying in order |
| `SmallBins.UnlinkFirst` | bionic/libc/bionic/dlmalloc.c:4287-4310 | takes the front chunk of a marked bin, which has the size of the bin; the rest of its list stays |
| `Trie.FindSize` | bionic/libc/bionic/dlmalloc.c:4343-4375 | the walk by sign bits ends at the node of the size, or at the only place for it when no chunk of the bin has that size |
| `Trie.InsertBelow` | bionic/libc/bionic/dlmalloc.c:4343-4375 | a nonempty bin stays a valid trie and gains exactly the given chunk, as a new leaf or in the ring of its size; it is last in the line of its size and the other lines stay |
| `Trie.RightmostLeaf` | bionic/libc/bionic/dlmalloc.c:4429-4444 | finds a leaf strictly below the node, with the child word that leads to it, unless the node is a leaf |
| `Trie.Relink` | bionic/libc/bionic/dlmalloc.c:4445-4484 | parent and children of the removed node are relinked to its replacement, and nothing else changes |
| `Trie.UnlinkLone` | bionic/libc/bionic/dlmalloc.c:4398-4484 | removing the only chunk of its size, by pruning or by moving a leaf up, keeps the trie valid |
| `Trie.UnlinkChained` | bionic/libc/bionic/dlmalloc.c:4398-4484 | removing one of several equal chunks keeps the trie valid, its ring neighbour taking over its place |
| `Trie.Unlink` | bionic/libc/bionic/dlmalloc.c:4398-4484 | in all cases the trie stays valid and loses exactly the given chunk; the line of its size closes up in order and the other lines stay |
| `Trie.NodeIsOldest` | bionic/libc/bionic/dlmalloc.c:1938-1944 | the chunk that is in the tree itself is the oldest of its size |
| `TreeBins.Insert` | bionic/libc/bionic/dlmalloc.c:4327-4376 | all tree bins stay valid tries, marked exactly when nonempty, and hold exactly one more chunk, last in the line of its size |
| `TreeBins.Unlink` | bionic/libc/bionic/dlmalloc.c:4398-4484 | all tree bins stay valid, marked exactly when nonempty, and hold exactly one chunk less; in every size the order of age stays |
| `TreeBins.DepthBound` | bionic/libc/bionic/dlmalloc.c:1968-1972 | no path is longer than the number of digits that distinguish the sizes of its bin |
| `TrieSearch.SeekSizeInBin` | bionic/libc/bionic/dlmalloc.c:5093-5118 | after the walk, the best chunk met is best except possibly for the subtree remembered, the deepest right one not taken |
| `TrieSearch.SmallestBelow` | bionic/libc/bionic/dlmalloc.c:5129-5137 | the leftmost walk finds the smallest chunk of a subtree, unsigned remainders included |
| `TreeBins.FindLarge` | bionic/libc/bionic/dlmalloc.c:5088-5140 | the search of `tmalloc_large` is best fit among all chunks of all tree bins, and finds none only if none fits; of equal chunks it finds the one inserted first |
| `TreeBins.FindSmall` | bionic/libc/bionic/dlmalloc.c:5164-5182 | the search of `tmalloc_small` finds a smallest chunk of all tree bins, and of equal ones the one inserted first |
| `Tiling.Predecessor` | bionic/libc/bionic/dlmalloc.c:5673-5690 | every chunk but the first has one before it, and if that one is free the footer leads to it |
| `Layout.UseStep` | bionic/libc/bionic/dlmalloc.c:2795-2798 | `set_inuse_and_pinuse` on a free chunk keeps the heap invariant and adds exactly that chunk to those in use |
| `Layout.SplitStep` | bionic/libc/bionic/dlmalloc.c:5573-5590 | splitting a free chunk keeps the heap invariant; the first part is in use, the rest free |
| `Layout.MergeStep` | bionic/libc/bionic/dlmalloc.c:5673-5740 | a run of a chunk in use and its free neighbours becomes one free chunk; the heap invariant holds and only that chunk leaves those in use |
| `Layout.MergeTopStep` | bionic/libc/bionic/dlmalloc.c:5703-5714 | the same when the run is followed by `top`, which absorbs it |
| `Layout.CutStep` | bionic/libc/bionic/dlmalloc.c:5339-5359 | cutting a chunk in use in two keeps the heap invariant |
| `Arena.RequestSize` | bionic/libc/bionic/dlmalloc.c:1811-1820 | a padded request is the least multiple of 8 that is at least `MIN_CHUNK_SIZE` and has room for the overhead word |
| `Arena.Arena.constructor` | bionic/libc/bionic/dlmalloc.c:4605-4627 | a fresh segment that is all `top` satisfies the heap invariant with nothing in use |
| `Arena.Arena.UnlinkChunk` | bionic/libc/bionic/dlmalloc.c:4492-4494 | the chunk leaves the bin of its size, whose other chunks keep their order, and the rest of the heap invariant holds |
| `Arena.Arena.InsertChunk` | bionic/libc/bionic/dlmalloc.c:4488-4490 | a chunk in transit enters the bin of its size, at the front if it is small and last in the line of its size if it is large |
| `Arena.Arena.ReplaceDv` | bionic/libc/bionic/dlmalloc.c:4313-4323 | the remainder is `dv` afterwards, the old `dv`, if any, is in its bin and nothing else enters a bin; nothing in use changes |
| `Arena.Arena.TmallocLarge` | bionic/libc/bionic/dlmalloc.c:5088-5161 | serves from a best fit among all free chunks that beats `dv`, the one of its size inserted first, or declines exactly when `dv` fits at least as well or nothing fits; `dv` stays, and the block takes the whole chunk only if the rest could not be one |
| `Arena.Arena.TmallocSmall` | bionic/libc/bionic/dlmalloc.c:5164-5202 | serves a small request from the first inserted of the smallest tree chunks; the rest, if it can be a chunk, is `dv` afterwards |
| `Arena.Arena.MallocSmall` | bionic/libc/bionic/dlmalloc.c:5542-5597 | the small-request order: a chunk that need not be split, then `dv`, then the smallest chunk of any bin; the front chunk of a small bin; the rest of a chunk that is split is `dv` afterwards |
| `Arena.Arena.SplitSmall` | bionic/libc/bionic/dlmalloc.c:5563-5590 | a small-bin split always leaves a remainder that is a chunk, and that is `dv` afterwards |
| `Arena.Arena.SysAlloc` | bionic/libc/bionic/dlmalloc.c:4928-4936 | a contiguous extension of the segment goes to `top`, from which the request is served if it fits |
| `Arena.Arena.Malloc` | bionic/libc/bionic/dlmalloc.c:5512-5651 | keeps the whole heap invariant; on success exactly one chunk is new, aligned, of the padded request or, where the rest could not be a chunk, the whole chunk, chosen by the stated policy; what `dv` and `top` are afterwards; the segment grows exactly when nothing else serves the request; it fails only if the request is too big or nothing fits, `top` with its extension included; no payload in use changes |
| `Arena.Arena.Free` | bionic/libc/bionic/dlmalloc.c:5653-5754 | keeps the whole heap invariant and takes exactly the given chunk out of those in use, for every combination of neighbours, `dv` and `top`; where `dv` and `top` are afterwards and which of them took the run in; null is ignored; no other payload changes |
| `Arena.Arena.Memalign` | bionic/libc/bionic/dlmalloc.c:5290-5376 | for every alignment up to 2^31, the block is aligned to it rounded up to a power of two and large enough, leader and trailer are free again, and the heap invariant holds; it fails only if the request is too big or nothing serves the request inflated by alignment and `MIN_CHUNK_SIZE`; no payload in use changes |
| `Arena.Arena.SplitLeader` | bionic/libc/bionic/dlmalloc.c:5335-5346 | leader and block tile the chunk, whatever the words inside it were |
| `Arena.Arena.GiveTrailer` | bionic/libc/bionic/dlmalloc.c:5348-5359 | block and trailer tile the chunk; the trailer is split off exactly if more than `MIN_CHUNK_SIZE` is spare |
| `Arena.Arena.AlignChunk` | bionic/libc/bionic/dlmalloc.c:5313-5374 | the aligned chunk starts where the chunk does if that is aligned, otherwise as early as its leader can be a chunk; it is trimmed exactly if more than `MIN_CHUNK_SIZE` is spare, and nothing but it stays in use of the chunk |
| `Arena.AlignedRequest` | bionic/libc/bionic/dlmalloc.c:5310-5311 | the request for room has a chunk of the size wanted, the alignment and `MIN_CHUNK_SIZE`, exactly |
| `Alignment.PowerOfTwo` | bionic/libc/bionic/dlmalloc.c:5298-5302 | the alignment used is the least power of two from 16 on that is large enough |
| `Alignment.PowerTest` | bionic/libc/bionic/dlmalloc.c:5298 | a number that shares no bit with its predecessor is a power of two |
| `Alignment.PowerPasses` | bionic/libc/bionic/dlmalloc.c:5298 | every power of two passes that test |
| `Alignment.RoundingEnds` | bionic/libc/bionic/dlmalloc.c:5298-5302 | the rounding loop on 32-bit words ends if and only if the alignment is at most 2^31 |
| `Alignment.LargeIsNoPower` | bionic/libc/bionic/dlmalloc.c:5298-5302 | every larger alignment enters that loop |
| `Alignment.LeadFits` | bionic/libc/bionic/dlmalloc.c:5316-5332 | the aligned spot found leaves a leader of at least `MIN_CHUNK_SIZE` and at most the alignment plus 8 bytes |
| `Arena.Arena.Execute` | bionic/libc/bionic/dlmalloc.c:5512-5754 | any sequence of calls and of writes into live blocks: each call has its effect, with its answer, on the heap, on `dv` and `top` and on the live blocks; live blocks are aligned, inside the segment, pairwise disjoint, exactly the chunks in use and of a suitable size; each still holds what it held at any moment since when it was not written to; all bytes are accounted for |
| `Arena.Arena.Perform` | bionic/libc/bionic/dlmalloc.c:5512-5754 | one operation has exactly its effect: an allocation adds one block by the stated policy or is refused for a stated reason, a free takes one away, a write changes one payload; every other block keeps its contents |
| `Arena.RemembersStep` | bionic/libc/bionic/dlmalloc.c:5512-5754 | what a block held at any earlier moment survives one more operation, if it was left alone since |
| `Arena.EffectsStep` | bionic/libc/bionic/dlmalloc.c:5512-5754 | the effects of the operations so far stay on record when one more is performed |
| `Arena.Arena.Write` | bionic/libc/bionic/dlmalloc.c:3766-3782 | writing anything into a live block keeps the heap invariant and changes nothing else |
| `Payload.OwnWords` | bionic/libc/bionic/dlmalloc.c:3766-3813 | no payload meets a head word, or the footer or the links of a free chunk |
| `Payload.TagsWritten` | bionic/libc/bionic/dlmalloc.c:1845-1870 | writing head words of chunks, old or new, and the footer of a free chunk changes no payload in use |
| `Payload.LinksWritten` | bionic/libc/bionic/dlmalloc.c:4234-4484 | writing links of free chunks and bin headers changes no payload in use |
| `Payload.WriteSpares` | bionic/libc/bionic/dlmalloc.c:3817-3835 | a write into one payload changes no word in another |
| `Payload.PayloadsDisjoint` | bionic/libc/bionic/dlmalloc.c:3817-3835 | payloads are aligned, inside the segment, and do not overlap |
| `Payload.WriteKeeps` | bionic/libc/bionic/dlmalloc.c:3766-3813 | no payload covers a head word, a meaningful footer, or a link of a free chunk, so arbitrary payload contents keep the invariant |
| `Payload.Conservation` | bionic/libc/bionic/dlmalloc.c:4021-4049 | bytes in use plus binned bytes plus `dv` plus `top` equal the size of the segment |
| `NormalMutex.StepKeeps` | bionic/libc/bionic/pthread.c:1036-1126 | every atomic step keeps exclusion, the meaning of the word, the wakeup guarantee, and each thread in the call it made |
| `NormalMutex.MutualExclusion` | bionic/libc/bionic/pthread.c:1036-1126 | over all runs of lock, trylock, timed lock and unlock, the state is nonzero exactly if one thread owns the mutex, and never two do |
| `NormalMutex.Answers` | bionic/libc/bionic/pthread.c:1337-1468 | a request gets the mutex only if nobody owns it; it is turned away only if it is a trylock while another thread owns it, or a timed lock whose time is over; a trylock succeeds exactly if nobody owns the mutex |
| `NormalMutex.Progress` | bionic/libc/bionic/pthread.c:1036-1126 | a call on a mutex nobody else owns is over after at most three undisturbed steps |
| `NormalMutex.Settles` | bionic/libc/bionic/pthread.c:1049-1070 | nobody spins: while another thread owns the mutex a request is answered or asleep, on a mutex marked contended, after at most five steps |
| `NormalMutex.TimesOut` | bionic/libc/bionic/pthread.c:1447-1468 | a timed lock whose time is over ends after at most four steps of its own |
| `NormalMutex.Uncontended` | bionic/libc/bionic/pthread.c:1036-1126 | a thread that has the mutex to itself never marks it contended, so never makes a futex call |
| `NormalMutex.NoLostWakeup` | bionic/libc/bionic/pthread.c:1052-1126 | a sleeper implies a contended state, a releaser that has yet to wake, or an awake retrier; timed locks included |
| `NormalMutex.SomebodyAwake` | bionic/libc/bionic/pthread.c:1447-1468 | while a thread sleeps, another one is awake in a call or holds the mutex |
| `MutexWord.PackFields` | bionic/libc/bionic/pthread.c:750-892 | the five fields of a mutex word are read back unchanged |
| `MutexWord.FlipFields` | bionic/libc/bionic/pthread.c:804-805 | flipping contention changes only the lock state, from 1 to 2 |
| `MutexWord.BumpFields` | bionic/libc/bionic/pthread.c:807-820 | adding one to a counter that is not full touches no other field |
| `RecursiveMutex.StepKeeps` | bionic/libc/bionic/pthread.c:1140-1324 | every atomic step keeps the encoding of the word, what each thread's local copy says, what each call has done to its thread's depth so far and may return, and the wakeup guarantee |
| `RecursiveMutex.WordEncodesOwner` | bionic/libc/bionic/pthread.c:1140-1324 | in every reachable state the word encodes the only thread with a positive depth, that depth less one, the fixed type bits and the lock state |
| `RecursiveMutex.MutualExclusion` | bionic/libc/bionic/pthread.c:1174-1252 | two threads never have the mutex locked at once |
| `RecursiveMutex.OthersOnlyContend` | bionic/libc/bionic/pthread.c:1155-1170 | a thread that is not the owner changes at most the lock state, from uncontended to contended |
| `RecursiveMutex.UnlockAnswers` | bionic/libc/bionic/pthread.c:1270-1324 | unlocking answers EPERM exactly for a thread that has not locked the mutex, and then changes nothing |
| `RecursiveMutex.RelockAnswers` | bionic/libc/bionic/pthread.c:1140-1172 | locking again answers EAGAIN exactly when the 11-bit counter is full, EDEADLK exactly for an errorcheck mutex one owns |
| `RecursiveMutex.CallAnswers` | bionic/libc/bionic/pthread.c:1140-1379 | for every finished call: lock and trylock answer 0 exactly if they added a level, EAGAIN exactly if the owner's counter was full, EDEADLK exactly for an errorcheck mutex the thread had locked; only trylock answers EBUSY; unlock answers 0 exactly if the thread had locked the mutex and has now given up one level, otherwise EPERM |
| `RecursiveMutex.BusyMeansHeld` | bionic/libc/bionic/pthread.c:1361-1379 | EBUSY is answered only while another thread has the mutex locked |
| `RecursiveMutex.Progress` | bionic/libc/bionic/pthread.c:1174-1324 | a call on a mutex nobody else has locked is over after at most three undisturbed steps |
| `RecursiveMutex.Settles` | bionic/libc/bionic/pthread.c:1214-1252 | nobody spins: while another thread has the mutex locked a call is over or asleep after at most four steps |
| `RecursiveMutex.Uncontended` | bionic/libc/bionic/pthread.c:1174-1324 | a thread that has the mutex to itself stays off the slow path and never wakes anybody |
| `RecursiveMutex.NoLostWakeup` | bionic/libc/bionic/pthread.c:1214-1322 | a sleeper implies a contended state, an unlocker before its wake call, or an awake thread in the slow path |
| `RecursiveMutex.SomebodyAwake` | bionic/libc/bionic/pthread.c:1214-1322 | while a thread sleeps, another one owns the mutex or is awake and will see to the sleepers |
| `Once.RunsOnce` | bionic/libc/bionic/pthread.c:2163-2232 | the routine starts at most once, and has completed before any call returns |
| `Once.Progress` | bionic/libc/bionic/pthread.c:2163-2232 | a call returns, with the routine completed, after at most six undisturbed steps unless another thread runs the routine |
| `Once.Settles` | bionic/libc/bionic/pthread.c:2191-2219 | nobody spins: while another thread runs the routine a call is asleep after at most four steps |
| `Once.LaterCalls` | bionic/libc/bionic/pthread.c:2163-2185 | once a call has returned, any later one returns at once and changes nothing |
| `Once.NoLostWakeup` | bionic/libc/bionic/pthread.c:2195-2229 | a waiter sleeps only while the routine runs or its wake call is still to come |
| `RwLock.StepKeeps` | bionic/libc/bionic/pthread-rwlocks.c:167-347 | every critical section keeps ownership, the pending counts and the wakeup guarantee |
| `RwLock.WriterIdMeaning` | bionic/libc/bionic/pthread-rwlocks.c:167-347 | `numLocks` counts the holds; the writer id is a thread's exactly if it holds the lock for writing, and then all holds are its own |
| `RwLock.WriterExcludes` | bionic/libc/bionic/pthread-rwlocks.c:281-308 | a write hold excludes every other thread |
| `RwLock.ReadersLetIn` | bionic/libc/bionic/pthread-rwlocks.c:215-254 | a reader is let in exactly if nobody waits to write and no other thread holds the lock for writing; otherwise it sleeps or is told EBUSY, and no hold changes |
| `RwLock.WokenReaderLetIn` | bionic/libc/bionic/pthread-rwlocks.c:241-250 | a woken reader is let in by the same rule, or sleeps again |
| `RwLock.WritersLetIn` | bionic/libc/bionic/pthread-rwlocks.c:262-308 | a writer is let in exactly if nobody holds the lock or it holds it for writing itself; otherwise it sleeps or is told EBUSY, and no hold changes |
| `RwLock.WokenWriterLetIn` | bionic/libc/bionic/pthread-rwlocks.c:294-306 | a woken writer is let in by the same rule, or sleeps again |
| `RwLock.UnlockAnswers` | bionic/libc/bionic/pthread-rwlocks.c:311-347 | unlocking what one holds never answers EPERM; it gives up one hold and, if that was the last of all, wakes everybody, otherwise nobody; unlocking a free lock or one another thread holds for writing answers EPERM and changes nothing |
| `RwLock.FreeLockIsContested` | bionic/libc/bionic/pthread-rwlocks.c:203-254 | while the lock is free no pending writer sleeps, and a sleeping reader implies a woken writer |
| `RwLock.WokenWriterSucceeds` | bionic/libc/bionic/pthread-rwlocks.c:293-305 | a woken writer of a free lock gets it |
| `SoPool.Alloc` | bionic/linker/linker.c:261-307 | the first free record or, if there is none, the next unused one moves to the end of `solist`; fails exactly when all are live; both lists stay disjoint chains that cover the used pool, `sonext` being last |
| `SoPool.Free` | bionic/linker/linker.c:309-333 | the record found by walking `solist` moves to the front of the free list; the same list invariant |
| `LibGraph.AddedKeeps` | bionic/linker/linker.c:297-303 | a clean record keeps all counts and slots right |
| `LibGraph.PatchedKeeps` | bionic/linker/linker.c:1900-1920 | patching a slot and counting the library it names keeps counts, slots and link order |
| `LibGraph.ClearedKeeps` | bionic/linker/linker.c:1259-1268 | clearing a slot leaves exactly one uncounted reference to give up |
| `LibGraph.RemovedKeeps` | bionic/linker/linker.c:1279-1283 | removing a library whose last reference is given up leaves no slot that names it |
| `LibGraph.Acyclic` | bionic/linker/linker.c:1198-1290 | no chain of slots leads back to its start |
| `LibGraph.NoDanglingSlot` | bionic/linker/linker.c:1256-1276 | no slot names a record on the free list |
| `LibGraph.LastReference` | bionic/linker/linker.c:1241-1289 | the unloading branch is taken exactly if nothing else refers to the library |
| `LibGraph.RoutePins` | bionic/linker/linker.c:1241-1289 | a usable library that a chain of slots leads to from something held or failed has a reference besides those being given up |
| `LibGraph.Reached` | bionic/linker/linker.c:1238-1290 | a library that is referred to is reached from something held or failed, however long the chain |
| `LibInit.LogGrows` | bionic/linker/linker.c:1535-1596 | running a library's initialisers once its dependencies have run keeps the log free of repeats and in dependency order |
| `LibInit.CtorsFinished` | bionic/linker/linker.c:1551-1596 | after that, marks, log and slots of all libraries still agree |
| `LibInit.PathInitialised` | bionic/linker/linker.c:1566-1580 | everything an initialised library needs, directly or not, is initialised |
| `LibRecords.BaseNameIs` | bionic/linker/linker.c:1211-1212 | the base name is what follows the last slash |
| `LibRecords.RecordAdded` | bionic/linker/linker.c:1214-1228 | a record is added only under a name no other has, so names stay distinct, and slots keep naming what was asked for |
| `LibFaults.FirstNamedIs` | bionic/linker/linker.c:1214-1223 | a walk that has passed no record of the name finds the first one, or that there is none |
| `LibFaults.StillExcused` | bionic/linker/linker.c:1198-1228 | a reason for which a library is not to be had goes on holding while nothing that failed recovers |
| `LibState.SoundPatched` | bionic/linker/linker.c:1900-1920 | patching the next slot with a library of the needed name keeps the whole invariant |
| `LibState.SoundRan` | bionic/linker/linker.c:1583-1594 | running initialisers when all slots' have run keeps the whole invariant |
| `LibState.SoundRemoved` | bionic/linker/linker.c:1279-1283 | freeing an unloaded record keeps the whole invariant |
| `LibState.SlotFilled` | bionic/linker/linker.c:1571-1577 | every slot of a library that is not being unloaded names a usable library, so the bad-pointer branches are dead |
| `LibChange.LoadedIsReached` | bionic/linker/linker.c:1238-1290 | nothing usable but libdl stays loaded unless something held or failed leads to it |
| `LibChange.RootedStays` | bionic/linker/linker.c:1238-1290 | unloading keeps every chain of slots that starts at a kept reference or at a failed library |
| `LibChange.GuardSpares` | bionic/linker/linker.c:1241-1283 | under the stated condition the library to unload is never libdl |
| `LibChange.GuardNeeded` | bionic/linker/linker.c:1241-1289 | without it, any end of the unloading that forgets nothing takes the count of libdl from positive to zero |
| `LibChange.RoutedIffCounted` | bionic/linker/dlfcn.c:252-263 | at rest, libdl is on such a chain exactly if its count is positive |
| `LibChange.LibdlUnguarded` | bionic/linker/dlfcn.c:252-263 | with a count of zero, opening and closing libdl once has it unloaded |
| `Linker.Linker.AllocInfo` | bionic/linker/linker.c:261-307 | fails exactly for a name of 128 characters or more or a full pool; otherwise appends a clean record as a new load |
| `Linker.Linker.LoadLibrary` | bionic/linker/linker.c:1097-1175 | fails exactly if there is no such file, its base name is too long, the pool is full, or reading or mapping it goes wrong, and leaves `solist` as it was; otherwise appends a record with the file's base name and needs |
| `Linker.Linker.FindLibrary` | bionic/linker/linker.c:1198-1228 | terminates for every file system and every series of load failures. If a record has the base name, the answer is the first such record if it is usable and null if it is not, and nothing is loaded. Otherwise a usable library of that name or null, and null only for a reason: no file, a long name, a full pool, a failed attempt, or a needed library that for a reason is not to be had |
| `Linker.Linker.LinkImage` | bionic/linker/linker.c:1900-1987 | every slot names a usable library called as its `DT_NEEDED` entry asks; success exactly if there is one for each entry and relocation and protection succeed; a failure has one of these reasons, the library is marked failed, and the slots patched so far stay counted |
| `Linker.Linker.CallConstructors` | bionic/linker/linker.c:1535-1596 | runs initialisers that have not run, those of the library itself last and after those of all dependencies; what is in the log stays and is never run again |
| `Linker.Linker.UnloadLibrary` | bionic/linker/linker.c:1238-1290 | terminates; on the last reference the library is gone and all it alone kept with it, otherwise only its count drops by one; libraries linked later or failed do not change, what else is left changes only in its count, and nothing usable is left unreferenced |
| `Linker.Linker.LoadPreloads` | bionic/linker/linker.c:1883-1898 | the preloads, found by name, are usable and get references that are never given up; a failure names a preload that for a reason is not to be had |
| `Linker.Linker.Start` | bionic/linker/linker.c:2114-2200 | after a successful start the invariant holds, the executable has the name and needs given, every preload is there, and the executable's initialisers ran last, after those of all it needs; libdl is safe for good exactly if its count is positive; it fails only for a long path, a failure of the executable itself, or a preload or need that for a reason is not to be had |
| `Linker.Linker.Dlopen` | bionic/linker/dlfcn.c:54-68 | if a record has the base name, a handle on the first such record if it is usable and null if it is not; otherwise a handle on a usable initialised library of that name, or null for a reason; no library leaves, initialiser runs are only added to the log, and those of libraries that had run stay |
| `Linker.Linker.Dlclose` | bionic/linker/dlfcn.c:159-165 | one handle less; unloads exactly on the last reference; no initialiser runs; nothing is added, nothing usable is left unreferenced, and everything reached from a kept reference or a failed library stays |
| `Linker.Linker.Counted` | bionic/linker/linker.c:1198-1290 | a count is the handles plus the permanent references plus the slots that name the library, which is reached from one of these or from a failed library |
| `Linker.Linker.RanInOrder` | bionic/linker/linker.c:1535-1596 | the initialisers of a library's present load are in the log exactly once, after those of all its slots name |
| `Linker.Perform` | bionic/linker/dlfcn.c:54-165 | one request: opening a known name answers from its first record, opening any other gives a handle or a reason, opening oneself a handle on the executable; closing takes a library away exactly on its last reference |
| `Linker.Serve` | bionic/linker/linker.c:1198-1290 | over any sequence of requests: each is answered as it should be, with its effect on records and handles; counts are exact, nothing usable is loaded without being reached, no load of any library is initialised twice or before what it depends on, and all that is reached from kept references and failed libraries stays |
| `LockGraph.TrappedByEdge` | bionic/libc/bionic/pthread_debug.c:641-647 | a search from the end of a new edge meets a cycle exactly if the start of the edge was reachable from there |
| `LockGraph.EdgeKeepsAcyclic` | bionic/libc/bionic/pthread_debug.c:641-658 | otherwise the graph with the edge is acyclic |
| `DeadlockPredictor.HistoryListHas` | bionic/libc/bionic/pthread_debug.c:471-480 | the first index of the entry, or -1 exactly if it is not there |
| `DeadlockPredictor.HistoryListRemove` | bionic/libc/bionic/pthread_debug.c:487-506 | the last entry takes the place of the last occurrence of the one removed; exactly one occurrence goes, and if that is the last entry the rest keeps its order |
| `DeadlockPredictor.Predictor.TraverseTree` | bionic/libc/bionic/pthread_debug.c:536-608 | terminates, restores all marks, and answers false exactly if some walk meets a marked lock or a cycle |
| `DeadlockPredictor.Predictor.TryLink` | bionic/libc/bionic/pthread_debug.c:639-660 | the edge is kept exactly if the held lock was not reachable from the new one, and its call stack is then stored at the index of its parent; otherwise graph, parents and call stacks are exactly as before |
| `DeadlockPredictor.Predictor.MutexLockChecked` | bionic/libc/bionic/pthread_debug.c:612-662 | the search with its rollback records exactly what a reachability test would: the order, with its call stack, if it is new and closes no cycle; owner, count and latest call stack as for a reentrant lock; the graph stays acyclic and recorded consistently at both ends |
| `DeadlockPredictor.Predictor.MutexUnlockChecked` | bionic/libc/bionic/pthread_debug.c:664-674 | the owner gives up one level, others change nothing |
| `DeadlockPredictor.Watch` | bionic/libc/bionic/pthread_debug.c:612-674 | any sequence of calls records what the calls one after another should, leaves the graph acyclic, and never forgets an order |
| `MemmoveWords.MovedBytes` | bionic/libc/bionic/memmove_words.c:36-148 | the specification says that the destination equals the original source and no other byte changes |
| `MemmoveWords.ForwardParts` | bionic/libc/bionic/memmove_words.c:51-60 | a forward copy under the code's overlap test may be cut into parts |
| `MemmoveWords.BackwardParts` | bionic/libc/bionic/memmove_words.c:111-147 | a backward copy may be cut into parts, upper part first |
| `MemmoveWords.Memory.Move` | bionic/libc/bionic/memmove_words.c:36-148 | memmove semantics for all even addresses and lengths and every overlap, by aligned 16-bit and 32-bit accesses that store each byte once; at most two are 16-bit ones if the addresses are congruent, and none for fully aligned arguments |
| `Timers.Add` | bionic/libc/bionic/pthread_internal.h:55-63 | adds nanoseconds exactly and keeps times normalised |
| `Timers.Sub` | bionic/libc/bionic/pthread_internal.h:65-73 | subtracts nanoseconds exactly and keeps times normalised |
| `Timers.Cmp` | bionic/libc/bionic/pthread_internal.h:85-92 | compares normalised times as their nanoseconds compare |
| `Timers.LeastIsUnique` | bionic/libc/bionic/pthread-timers.c:585-591 | the least number of periods is unique |
| `Timers.Timer.CatchUp` | bionic/libc/bionic/pthread-timers.c:581-595 | terminates after the least number of periods, at least one, that reaches `now`; the overrun count is that number, capped |
| `Timers.Timer.Pass` | bionic/libc/bionic/pthread-timers.c:545-627 | when the callback fires, the next expiry on the grid of periods, and the overrun count it sees; when it does not, nothing changes |
| `Timers.Passes` | bionic/libc/bionic/pthread-timers.c:540-627 | over any passes, what each pass does to the expiry and which callbacks see what; a periodic timer's expiry moves by whole periods, at least one for each callback, and one without a period has its callback at most once |

## Left out

- System memory: `sys_alloc` is a failure or a contiguous extension of `top`; mmapped chunks, several segments, trimming, fenceposts and footers are not modelled.
- Allocator extras: corruption reporting, mspaces, `realloc`, `calloc`, statistics.
- Weak memory: steps of the lock protocols are sequentially consistent, as their full barriers make them.
- Timed locking of recursive mutexes, condition variables themselves, and timed reader/writer locks.
- Thread creation, join and exit.
- NormalMutex.NoLostWakeup: the load of the type and shared bits before the fast path is not a step, because those bits never change.
- Once.RunsOnce: the routine is one step and does not call `pthread_once` on the same control.
- Linker.Linker.CallConstructors: initialisers do not themselves call the linker.
- Linker.Linker.UnloadLibrary: finalisers do not call the linker, and their runs are not recorded.
- Linker.Linker.LoadLibrary: mapping, relocation and protection only appear as ways to fail; symbol lookup and gdb notification are not modelled.
- DeadlockPredictor.Predictor.MutexLockChecked: `mrl` is any known lock; the list from which it is taken, logging and the hash table are not modelled.
- Timers.Timer.Pass: the callback does not change the timer's settings, and time does not overflow.
- MemmoveWords.Memory.Move: addresses are indices into one array.
- The rest of libc and libm, and the linker's environment handling and formatting.
