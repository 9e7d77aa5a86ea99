# A verified model of the slab allocator

The system is a thread-caching `malloc`. Memory comes from 4 MB segments cut into 64 KB pages. A page is
cut into slots of one size class. A page has an owner thread that allocates from it without locks: from a
private free list, then from the untouched rest of the page (the bump region), then from a lock-free stack
onto which other threads push the slots they free. Pages nobody owns are bumped under the arena lock.
Requests above 128 KB, and classes above 32 KB, get a mapping of their own.

The model has three layers.

**Concurrent.** `PageProtocol` gives one page and any number of threads as a state machine. A step is one
access to a word that other threads may change; accesses to what only the acting thread uses at that point
(the owner's local list and bump offset, a collected list, its page cache) are grouped with it. Steps
interleave in any order (sequential consistency), with spurious failures of the weak compare-and-swap.
`PageInvariant`, `PageSteps`, `PageRuns`, `PageLaws` and `PageVirgin` prove what every run keeps, and
`PageOwner` what ownership keeps even in runs that violate hypothesis H below. `PageEffect` states once what
each step changes. `PageCalls` shows that the runs contain the operations: from every reachable state a thread's
steps carry its call through, with the results that `PageForms` gives in closed form. `Slabs*` puts any number
of pages, arenas and threads together, with page caches, statistics and thread exits, on top of `PageIface` and
`PageNet`; `SlabsPages` carries the page theorems to it, `SlabsCalls` the calls, and `SlabsCounters` treats each
byte counter for itself. `Treiber*` treats the tagged stack by itself, with pop. `RegistryRuns` does the same
for the segment registry.

**Sequential.** `PageSolo` runs the protocol's steps for one thread at a time. `PageObject` is the page as
an object with fields updated in place, and its methods do exactly what those steps do. `HeapState`,
`HeapSteps`, `HeapPaths` and `HeapApi` put the whole allocator together over byte-addressed memory: the
class `Allocator` offers malloc, free, calloc, realloc and memalign, and each call is proved against the client's
view, a set of disjoint live blocks. `HeapLimits` has the conditions under which a call answers null, or leaves
the allocator out of order. `HeapServe` says what a call does to the whole state: which page serves it, which
slot it gives, who owns and caches the page then, and on which list a freed slot goes.

**Parts.** `SizeClass`, `FlatBound`, `Registry`, `Geometry`, `Mapping`, `Large`, `LargeList`, `TaggedWord`,
`Debug`, `HeapCheck` and `HeapCheckRuns` treat the structures and the arithmetic those layers rest on. `Bits` shows what the bit masks
compute, and `Basics` holds lists and 16-bit counters.

## Hypotheses

- *H, claim versus bump.* The ownership claim (src/slab.c:140) is outside the arena lock, while arena_alloc
  tests the owner (src/arena.c:62) and bumps later (src/arena.c:66). H says that no claim on a page with
  virgin slots succeeds while another thread is between its test and its bump (`ClaimSafe`). It is assumed
  for one place per slot, counters, fullness, bitmap, virgin memory and statistics. Ownership, page caches
  and the backlog of statistics (`PageOwner`, `SlabsRuns.CacheIsOwned`, `SlabsRuns.BacklogBounded`) need no H.
  `PageLaws.ClaimInWindowDoubles` shows that H is needed: from every reachable state in which it is about to
  fail there is a run that hands one slot to two threads. `PageLaws.WindowReachable` shows that such states
  are reachable.
- *Pop.* In the runs of `Treiber*` a pop's compare-and-swap succeeds only when fewer updates than there are tags
  came since its load. Pushes and collects need no such bound, and the allocator itself never pops.
  `TreiberRuns.AbaAfterWrap` shows that the bound is exact.
- *Thread ids* do not reach UINT32_MAX, so the owner word tells every thread from "no owner".
- *Wrap-around and a full registry* are no hypotheses of malloc, calloc and memalign: `HeapApi` says exactly when
  a call leaves the allocator out of order (`Lost`, `MemalignLost`), and what its client then holds. That is when
  a large size wraps (`LargeFits`), or when the 256 registry cells are full, the system grants a segment, and the
  call has to make one: no cached page with a free slot, no unowned page with virgin slots in the arena's list,
  no unused page in its segments. Realloc is stated for calls in which the block stays where it is or malloc is
  not lost. `Large.GreatestWraps` gives a size that wraps; `RegistryRuns.InsertLands` shows that 256 bases fit.
- *The operating system* hands out memory that is not in use (`HeapPaths.Honest`, `Mapping.Os.Unused`), zeroed.
- *Clients* of `HeapApi` free null, live blocks, or pointers into no mapping or into an unused page, and write
  inside live blocks only. The double-free theorems of `PageLaws` do not assume this.

## Where code and documents differ

- The written description of free decides between the local and the remote way by comparing arenas; the code
  compares the owner thread (src/slab.c:181-182). The model follows the code.
- README.md:57 promises at most 12.5% internal waste for any allocation. One byte gets 16 and 145 bytes get
  176. The bound that holds above 128 bytes is 9/8 of the size plus 15 bytes. `FlatBound.FlatBoundIff` names
  the bins that keep the promise: the odd ones from 7 to 15, and 36 of those from 16 on.
- The comment at src/malloc.c:159-163 expects aligned slots on the slab path. `Large.MemalignSlab` gives the
  exact condition, and `Large.MemalignFallback` shows that the fallback to a large block is never aligned.
- An aligned large block is meant to lie inside its mapping (src/large.c:16-48). An empty one with an alignment
  of at least a page and the record does not: its pointer is the end of the mapping (`Large.EmptyBlockOutside`;
  the exact condition is in `Large.BlockPlace`). my_memalign(131072, 0) is such a request
  (`Large.EmptyAlignedRequest`). Its free misses its own record and releases the mapping that starts at that
  address, if there is one (`Large.EmptyBlockFree`).
- debug_heap_check reports entries outside the page, but its slot index is truncated to 16 bits:
  `HeapCheck.EntryInPage` gives the exact condition and `HeapCheck.FarEntryPasses` an entry that passes.

## Model

| member | source | states |
|---|---|---|
| `PageSteps.StepKeeps` | src/slab.c:78-202 | every single shared access of the allocation and free paths, by any thread, keeps the page invariant |
| `PageRuns.EveryRun` | src/slab.c:78-202 | every state of every run of any number of threads satisfies the invariant |
| `PageCalls.FreeRuns` | src/slab.c:164-202 | from every reachable state, wherever other threads are, the free of a live slot runs through: onto the local list by the owner, onto the remote stack, whatever is on it, by others; the resulting page is the closed form that `PageObject.SlabPage.Free` computes in place |
| `PageCalls.FastRuns` | src/slab.c:83-125 | from every reachable state a caching thread's allocation runs through: local list, virgin slots, a collected stack of any length, or the drop of the page |
| `PageCalls.SlowRuns` | src/arena.c:60-78 | with the arena lock free, the slow path bumps and claims any unowned page with virgin slots, and passes over one without |
| `PageCalls.FreshRuns` | src/arena.c:108-124 | a new page gives its maker the first slot and can be claimed |
| `PageCalls.CasSucceeds` | include/malloc_atomic.h:45-80 | a compare-and-swap of push or collect may succeed exactly when the loaded word is the head |
| `PageCalls.NextBrings` | src/slab.c:78-202 | in every reachable state every thread inside an operation has a step that brings it nearer to the end |
| `PageCalls.Finishes` | src/slab.c:78-202 | obstruction freedom: left alone, a thread finishes its operation, or is aborted for freeing a slot that is not live, in at most capacity + 11 steps |
| `PageRuns.ExactlyOnePlace` | src/slab.c:78-154 | each slot is live, virgin, on the local list, on the remote stack, being collected or held by one thread in mid-operation, and never two of these |
| `PageRuns.HandoutBalance` | src/slab.c:84-121 | hand-outs minus returns of a slot equal the change of its being live, so no slot is handed to two callers |
| `PageRuns.CountersInFlight` | src/page.c:88-119 | `used`, `local_free_count` and `remote_free_count` hold the true counts modulo 2^16 up to exact terms for threads between push, count and decrement, and for an unsubtracted batch; the lists are those the links spell out from the heads and from the collector's position |
| `PageRuns.QuiescentAccounting` | src/debug.c:139-153 | with no operation in progress the counters are exact and used + local + remote + virgin = capacity |
| `PageOwner.OwnStep` | src/slab.c:78-202 | every enabled step, whether or not it respects H, keeps ownership in order: owners alone are in the owner's code, cachers are owners, slow paths and claims belong to others |
| `PageOwner.OwnerForever` | src/slab.c:139-148 | in every run, with or without H, an owner once set never changes |
| `PageOwner.SingleAccessor` | src/slab.c:79-151 | in every run, with or without H, only the owner is ever inside code that touches the local list or a collected list, a cached page is owned by its cacher, and the "already own it" branch is unreachable |
| `PageVirgin.VirginBytes` | src/slab.c:96-107 | in every run a virgin slot holds, in all its bytes, what the page started with: no step writes to it |
| `PageVirgin.BumpedBytes` | src/slab.c:97-107 | a slot taken from the virgin region stays with its thread, and keeps all its bytes, until it is handed out |
| `PageLaws.FullAtDrop` | src/slab.c:109-125 | when collect finds the stack empty every slot is live or in the hands of a thread in mid-operation |
| `PageLaws.DropRetires` | src/slab.c:123-125 | dropping the page, or the exit of its owner, retires it |
| `PageLaws.RetiredForever` | src/arena.c:57-78 | no later step of any run allocates from a retired page |
| `PageLaws.VirginStaysCached` | src/slab.c:134-151 | an owned page with virgin slots is still cached unless its owner exited |
| `PageLaws.BitmapExact` | src/debug.c:30-60 | the bitmap is the set of live slots; marking never aborts; a free passes exactly when the slot is live, and otherwise aborts with nothing else changed |
| `PageLaws.RacingFrees` | src/debug.c:46-60 | of racing frees of one slot with no re-allocation between them at most one passes, and exactly one if the slot was live and ends up not live |
| `PageLaws.LegalNeverAborts` | src/slab.c:173-176 | clients that free live slots once never trigger an abort |
| `PageLaws.ClaimInWindowDoubles` | src/slab.c:134-142 | without hypothesis H two threads come to hold one slot, from every reachable state where H is about to fail |
| `PageLaws.WindowReachable` | src/arena.c:60-66 | such states are reachable |
| `SlabsProof.MoveKeeps` | src/slab.c:63-202 | every move of the whole allocator, with or without H, keeps pages, caches, arena locks and threads consistent |
| `SlabsProof.MoveOwned` | src/slab.c:128-151 | every move, with or without H, keeps the ownership of every page in order |
| `SlabsProof.MoveGood` | src/slab.c:63-202 | every move that respects H keeps the full page invariant of every page |
| `SlabsRuns.EverySlotOnce` | src/slab.c:63-154 | each slot of each page is in exactly one place in every state of the whole allocator reachable under H |
| `SlabsRuns.CacheIsOwned` | src/slab.c:79-82 | in every run, with or without H, a page cached for bin b has bin b, is owned by the caching thread and is named by no other cache entry |
| `SlabsRuns.BacklogBounded` | src/slab.c:19-56 | in every run, with or without H, a thread's backlog is always below 64 operations, and no flush meets a null arena |
| `SlabsCounters.BacklogCounts` | src/slab.c:19-56 | each operation a thread notes with itself adds one to its backlog modulo 64, and the 64th flushes its bytes |
| `SlabsPages.PageTrace` | src/slab.c:63-202 | between any two states of a run that respects H, what the moves do to a page that is not aborted is a run of that page |
| `SlabsPages.PageReachable` | src/slab.c:63-202 | so every such page is in a state that runs of a page lead to |
| `SlabsPages.EveryPageCounts` | src/page.c:88-119 | in every state of the whole allocator the counters of each page are as `PageRuns.CountersInFlight` says, its bitmap is the set of live slots, and an empty collect means that every slot is live or held |
| `SlabsPages.EveryHandout` | src/slab.c:84-121 | between any two states of the whole allocator, hand-outs minus returns of a slot equal the change of its being live |
| `SlabsPages.EveryRetired` | src/arena.c:57-78 | no later move of the whole allocator allocates from a retired page |
| `SlabsPages.EveryVirgin` | src/slab.c:96-107 | a slot that is virgin was so in every earlier state, and no move in between wrote to it |
| `SlabsPages.LegalSurvives` | src/slab.c:173-176 | if all clients free live slots once, no page of the whole allocator is ever aborted |
| `SlabsCalls.FreeCompletes` | src/slab.c:164-202 | in every state reachable under H any thread between two calls can free any live slot of any page, and is between two calls again |
| `SlabsCalls.FastCompletes` | src/slab.c:78-126 | it can allocate from its cached page, as the closed form says |
| `SlabsCalls.SlowCompletes` | src/slab.c:128-153 | with its arena's lock free it can bump any unowned page of the arena with virgin slots, becoming the owner |
| `SlabsCalls.NewCompletes` | src/arena.c:80-124 | it can make a page of any size class and gets its first slot, becoming the owner |
| `SlabsCalls.CallFinishes` | src/slab.c:63-202 | any thread inside a call on a page can finish it by its own moves |
| `SlabsLedger.FlushBooks` | src/slab.c:21-40 | a flush moves the thread's bytes to its arena and changes no other arena's books |
| `SlabsLedger.ExitBalanced` | src/tld.c:12-24 | a thread's exit moves its last bytes to its arena, and every arena stays balanced |
| `SlabsLedger.MoveBalanced` | src/slab.c:19-56 | every move, thread exit included, keeps every arena's books balanced |
| `SlabsRuns.ArenaBalance` | src/slab.c:21-56 | per arena, allocated minus freed plus unflushed deltas equals the bytes of live slots, up to exact terms for operations between a slot change and its statistics |
| `SlabsCounters.MoveTotal` | src/slab.c:21-56 | every move, with or without H, changes the allocated and the freed counter of each arena, unflushed bytes included, by exactly what it records there |
| `SlabsCounters.CountersExact` | src/slab.c:21-56 | in every state of every run, with or without H, each of the two counters, unflushed bytes included, is the number of bytes of all allocations, or of all frees, completed so far |
| `PageSolo.TryCached` | src/slab.c:83-125 | alone, the fast path hands out a slot that was not live, virgin or not as reported, or drops the page, and writes no link |
| `PageSolo.FromUnowned` | src/arena.c:60-78 | alone, the slow path hands out the next virgin slot, and the claim makes the caller owner and cacher |
| `PageSolo.Freed` | src/slab.c:178-194 | alone, a free removes exactly that slot from the live ones and writes the link of that slot only |
| `PageObject.FullExactly` | src/page.c:48-78 | alone, the owner drops a page exactly when every slot is live |
| `PageObject.SlabPage.constructor` | src/page.c:10-41 | a fresh page has every slot virgin, no owner and empty lists |
| `PageObject.SlabPage.Pop` | src/slab.c:84-88 | the first slot of the local list is handed out, and the links spell out the rest of it |
| `PageObject.SlabPage.Bump` | src/slab.c:97-101 | the first virgin slot becomes live and is in no other place, and no other slot changes its place |
| `PageObject.SlabPage.BumpUnowned` | src/arena.c:63-76 | the in-place bump and claim do what the protocol's steps do |
| `PageObject.SlabPage.FreeLocal` | src/page.c:81-86 | the links spell out the slot in front of the local list, exactly when it was not on it already |
| `PageObject.SlabPage.FreeRemote` | src/page.c:89-93 | uninterrupted, the links spell out the slot in front of the remote stack, exactly when it was not on it already |
| `PageObject.SlabPage.Free` | src/slab.c:178-194 | the in-place free does what the protocol's steps do |
| `PageObject.SlabPage.CollectRemote` | src/page.c:96-119 | the stack goes in front of the local list in the same order, only its last link changes, and the counters move by its length |
| `PageObject.SlabPage.Alloc` | src/slab.c:83-125 | the in-place fast path does what the protocol's steps do |
| `TreiberRuns.Linearizable` | include/malloc_atomic.h:45-80 | for any tag width and spurious failures, the successful updates replay on an abstract stack, the links spell out its contents, and pushed nodes are the returned ones plus those still there |
| `TreiberRuns.PushRun` | include/malloc_atomic.h:45-55 | from every reachable state a push can run through, whatever is on the stack |
| `TreiberRuns.PopRun` | include/malloc_atomic.h:58-68 | so can a pop of a stack that is not empty |
| `TreiberRuns.CollectRun` | include/malloc_atomic.h:71-80 | so can a collect and the walk along what it got: the replayed contents, all of them |
| `TreiberRuns.CasSucceeds` | include/malloc_atomic.h:45-80 | a compare-and-swap may succeed exactly when its loaded word is the head |
| `TreiberRuns.NullMeansEmpty` | include/malloc_atomic.h:58-80 | a pop or collect answers null exactly when the replayed stack is empty at its load, so these answers fit into the same order |
| `TreiberRuns.CollectTakesAll` | include/malloc_atomic.h:71-80 | a successful collect leaves the stack empty, and its nodes are in nobody else's hands |
| `TreiberRuns.StackedLinkFixed` | include/malloc_atomic.h:45-55 | the link of a node in the stack does not change while it is there |
| `TreiberRuns.CasMeansUnchanged` | include/malloc_atomic.h:58-68 | a non-spurious failure means another update succeeded since the load; success within fewer updates than there are tags means none did |
| `TreiberRuns.AbaAfterWrap` | include/malloc_atomic.h:58-68 | the bound is tight: a run with exactly 65536 updates in between after which pop puts a free node on the stack |
| `TaggedWord.RoundTrip` | include/malloc_atomic.h:18-34 | the tag always comes back, the address exactly when it is below 2^48 |
| `TaggedWord.WordIsPair` | include/malloc_atomic.h:22-34 | every word is the packing of its parts, so comparing words compares pairs |
| `Registry.Segments.Register` | src/segment.c:17-28 | the loop computes the specified insertion |
| `Registry.Segments.Unregister` | src/segment.c:30-41 | the loop computes the specified removal |
| `Registry.Segments.IsRegistered` | src/segment.c:43-52 | the loop computes the specified lookup |
| `Registry.LookupIff` | src/segment.c:43-52 | lookup of a nonzero base agrees with membership |
| `Registry.LookupNull` | src/segment.c:43-52 | lookup of the null base answers whether the table has an empty cell |
| `Registry.InsertIff` | src/segment.c:17-28 | insertion adds exactly its base, unless the table is full, and keeps every search intact |
| `Registry.RemoveIff` | src/segment.c:30-52 | after a removal another stored base is found exactly when its search does not cross the cleared cell |
| `Registry.RemoveKeepsAll` | src/segment.c:30-52 | all other lookups are preserved exactly when no stored base's search crosses the cleared cell |
| `Registry.RemoveLosesOne` | src/segment.c:30-52 | two bases that hash alike: removing the first loses the second |
| `Registry.NeighboursSpread` | src/segment.c:13-15 | no two of 256 consecutive segments share their first cell |
| `RegistryRuns.LookupExact` | src/segment.c:43-52 | under concurrent inserts a lookup answers membership at the moment it answers, and finds only bases that were to be registered |
| `RegistryRuns.InsertLands` | src/segment.c:17-28 | an insert that returns has stored its base, unless more than 256 bases were asked for and the table is full of others |
| `RegistryRuns.StaysRegistered` | src/segment.c:17-28 | a registered base stays registered |
| `RegistryRuns.FoundAfterInsert` | src/segment.c:13-52 | a lookup that answers after an insert of its base completed finds it |
| `RegistryRuns.RegisterAlone` | src/segment.c:17-28 | from any state, left alone, a registration ends within 256 steps and does what the sequential insertion does |
| `RegistryRuns.AskAlone` | src/segment.c:43-52 | from any state, left alone, a lookup answers within 256 steps as the sequential lookup does |
| `Geometry.AddressRoundTrip` | src/segment.c:126-148 | any address in a slot leads back to its segment, page, slot and offset |
| `Geometry.SlotSizeBounds` | src/page.c:19-21 | slot sizes are multiples of 16, no smaller than their class, and at most half a page when the class is |
| `Geometry.CapacityBounds` | src/page.c:23-27 | a page has at least 2 and at most 4096 slots: as many as fit |
| `Geometry.AllSlotsAligned` | src/malloc.c:159-163 | all slots of a page are aligned to a power of two exactly when the slot size is a multiple of it |
| `SizeClass.Tables.Init` | src/size_class.c:12-46 | the loops fill the tables with the specified classes |
| `SizeClass.Tables.SizeToBin` | src/size_class.c:48-69 | the least bin that fits for every size up to 131072, 0 counting as 1; above it the last bin, or bin 0 when rounding wraps |
| `SizeClass.Tables.BinToSize` | src/size_class.c:71-74 | the class of a bin, or the largest class |
| `SizeClass.TableIncreases` | src/size_class.c:24-45 | the table is strictly increasing, fills all 75 bins with multiples of 8 (16 from bin 16 on) and ends at 131072 |
| `SizeClass.NeverPatched` | src/size_class.c:31-35 | the two corrections in the generating loop never apply |
| `SizeClass.NothingLeft` | src/size_class.c:42-45 | the generating loop ends at bin 75, so the filling loop has nothing to copy |
| `SizeClass.Waste` | src/size_class.c:24-69 | for sizes above 128 the class is below 9/8 of the size plus 15 |
| `FlatBound.FlatBoundIff` | README.md:57 | for every bin: all sizes it serves get a slot of at most 9/8 of their size exactly when the bin is odd and from 7 to 15, or one of 36 named bins from 16 on |
| `FlatBound.OneByte` | README.md:57 | one byte gets a slot of 16 |
| `FlatBound.FlatBoundFails` | README.md:57 | 145 bytes get a slot of 176 |
| `Bits.AlignUpLeast` | src/os.c:27 | the mask expression gives the least multiple of a power of two not below its argument |
| `Bits.PowerTest` | src/malloc.c:145 | the mask test accepts exactly the powers of two |
| `Mapping.TrimExact` | src/os.c:20-39 | the trimmed range is aligned, and lies inside the mapping exactly when the request did not wrap |
| `Mapping.Os.MmapAligned` | src/os.c:10-42 | unless the request wraps, what stays mapped is exactly an aligned range of the requested size, new to the process, and `mmap_bytes` stays the number of mapped bytes; if it wraps, the returned range is not inside the new mapping; a refusal changes nothing |
| `Mapping.Os.Munmap` | src/os.c:44-49 | exactly the range goes, and `mmap_bytes` stays exact |
| `Large.FitsIff` | src/large.c:16-24 | the block fits its mapping exactly when the additions do not wrap, and then the mapping is the least number of whole pages |
| `Large.GreatestWraps` | src/large.c:19-24 | SIZE_MAX wraps and gets a mapping of one page |
| `Large.BlockPlace` | src/large.c:16-48 | the block is aligned, past the record and inside the mapping; the pointer itself is inside unless the block is empty behind whole pages of header |
| `Large.EmptyBlockOutside` | src/large.c:16-48 | the pointer of an empty block whose alignment is at least a page and the record is the end of its mapping |
| `Large.EmptyAlignedRequest` | src/malloc.c:155-157 | my_memalign(131072, 0) gets such a block, which its own record does not cover |
| `Large.EmptyBlockFree` | src/large.c:50-81 | freeing it releases the mapping that starts at its end and leaves its own record in the list |
| `LargeList.List.Insert` | src/large.c:34-44 | the record becomes the head, all links stay consistent, and the byte counter stays exact |
| `LargeList.List.Find` | src/large.c:83-97 | the first record whose mapping holds the pointer, or null when there is none |
| `LargeList.List.Unlink` | src/large.c:60-71 | exactly that record leaves the list |
| `LargeList.List.Free` | src/large.c:50-81 | the first covering record leaves the list, or nothing changes; an exact byte counter stays exact |
| `LargeList.List.Resize` | src/malloc.c:124-128 | after the in-place branch of realloc the byte counter stays exact only when the size did not change |
| `Large.MemalignRoutes` | src/malloc.c:141-174 | exactly the powers of two are accepted; those up to 16 go the plain way; an aligned mapping is made exactly when the size exceeds 131072 or the alignment 65536, so the second size test never applies; a slab request is the least multiple of the alignment that holds the size |
| `Large.MemalignSlab` | src/malloc.c:159-173 | all slots the request may get are aligned exactly when the bin's slot size is a multiple of the alignment |
| `Large.MemalignFallback` | src/slab.c:73-76 | a request that falls back to a large block is never aligned as asked |
| `Large.MemalignMisses` | src/malloc.c:164-173 | 160 bytes at alignment 32 get 176-byte slots |
| `HeapState.BlocksDisjoint` | src/malloc.c:11-42 | live blocks are pairwise disjoint, have one size each, are not null and are 16-byte aligned |
| `HeapState.BlockClear` | src/segment.c:54-88 | a live block overlaps no segment header and no record of a large allocation |
| `HeapPaths.SlotToPage` | src/segment.c:125-148 | through the registry, any slot address leads back to the page that produced it |
| `HeapPaths.FreedGoesTo` | src/slab.c:181-194 | a freed slot goes in front of the local list exactly when the page's owner frees it, and otherwise in front of the remote stack; the other list stays |
| `HeapLimits.LargeFitsIff` | src/large.c:12-48 | a large allocation the system grants is aligned; it leaves the allocator in order, as a new zeroed block, exactly when size plus header and rounding does not wrap and it is not an empty block behind whole pages of header; otherwise the block is not inside its mapping |
| `HeapLimits.SegmentRoomIff` | src/segment.c:54-88 | a new segment leaves the allocator in order, with all blocks kept, exactly when the registry has an empty cell; otherwise no pointer into it leads to a segment or a mapping |
| `HeapLimits.FoundIffRoom` | src/segment.c:17-28 | after segment_register a pointer into the segment leads back to it exactly when the table had an empty cell, and otherwise to none |
| `HeapPaths.LargeToNone` | src/malloc.c:33-41 | the pointer of a large block leads to no segment |
| `HeapApi.Allocator.Malloc` | src/malloc.c:11-21 | null exactly when the system refuses the mapping, or there is no cached, unowned or unused page and no arena or no new segment; otherwise the client gains exactly one new block, the slot of the least bin that fits or the size itself, and every other block keeps its contents; which page and slot serve the call, and the whole new state, follow `HeapServe.Serves`; the allocator stays in order unless the size wraps or a segment is needed that the registry has no room for, and exactly then the pointer is one that free does not find or a block outside its mapping |
| `HeapApi.Allocator.Free` | src/malloc.c:23-42 | exactly that block goes, every other keeps its contents; the slot goes to the local list or the remote stack by owner, and caches, lists and registry stay; null and pointers into no segment and no mapping, or into an unused page, change nothing |
| `HeapApi.Allocator.FreeThenMalloc` | src/slab.c:181-188 | a thread that frees a slot of its cached page gets the same slot back for any size of the same bin |
| `HeapApi.Allocator.Calloc` | src/malloc.c:44-70 | as malloc of the product, with all its bytes zero; an overflowing product gives null and changes nothing |
| `HeapApi.Allocator.Memalign` | src/malloc.c:141-174 | null and no change for an alignment that is no power of two; otherwise the exact conditions for null and for staying in order, and a new block: what malloc gives on the plain way, the size itself on the aligned way, the slot for the rounded size on the slab way; aligned on the first two, on the slab way whenever the slot size is a multiple, and never when that falls back to a large block |
| `HeapApi.Allocator.Realloc` | src/malloc.c:72-139 | a block stays exactly when it fits its slot's bin or its mapping: a slot keeps its size, a large block gets the new one; otherwise null exactly when malloc answers null, with everything unchanged, or the block malloc gives for the size with the old contents up to the lesser size, all others untouched; null pointers and size 0 as malloc and free; a pointer into no segment and no mapping gives null and changes nothing |
| `HeapApi.Allocator.ReallocSlab` | src/malloc.c:96-119 | the slab part of that: the slot stays, and nothing changes, exactly when the size has the same bin |
| `HeapApi.Allocator.ReallocLarge` | src/malloc.c:121-136 | the large part of that: the block stays exactly when its mapping has the bytes, and is then a block of the new size |
| `HeapApi.Allocator.Move` | src/malloc.c:111-117 | exactly malloc, copy, free: the contents move to the block malloc gives and nothing else changes |
| `HeapApi.Allocator.UsableSize` | src/malloc.c:191-201 | on any pointer: the size of the client's block, whatever it is now; for other pointers the slot size of the page or the size of the block of the mapping they lie in; 0 for null, for unused pages and for pointers into nothing |
| `HeapApi.Allocator.SlabAlloc` | src/slab.c:63-154 | the exact conditions for null and for staying in order; a new block that is a slot of the least bin that fits, or a large block when that bin is not served from pages; the caller owns and caches the page of its slot, and no other cache entry changes; zero if reported so; when out of order, a pointer that free does not find |
| `HeapApi.Allocator.FastPath` | src/slab.c:78-126 | the first free slot of the cached page as a new block, from the local list, the virgin region or the remote stack in this order; or the page dropped with all blocks kept, the latter exactly when all its slots are live |
| `HeapApi.Allocator.SlowPath` | src/slab.c:128-153 | a zeroed slot of the first unowned page with virgin slots, the first unused page or a new segment, in this order; a caller with thread-local data becomes owner and cacher, for one without no owner is set and no cache changes; null exactly when there is no page and the system refuses a segment; out of order exactly when there is none and the registry has no room for the segment it grants |
| `HeapApi.Allocator.TakeUnowned` | src/arena.c:63-76 | the next virgin slot, never written before, as a new block; a caller with thread-local data becomes the owner of the page and has it in its cache for the bin; for one without the owner stays none and the caches stay as they were |
| `HeapApi.Allocator.ScanBin` | src/arena.c:60-78 | the first page of the arena's list for the bin that is unowned with virgin slots, or none in the list is |
| `HeapApi.Allocator.NewPage` | src/arena.c:80-109 | the first unused page of the arena's segments, or the first of a new segment, blank, put in front of its bin list, with all blocks kept; none exactly when all pages are used and the system refuses a segment; where no pointer leads exactly when it grants one that the registry has no room for |
| `HeapApi.Allocator.NewSegment` | src/segment.c:54-88 | a zeroed segment in front of the arena's segments, registered with all blocks kept when there is room, and otherwise with no pointer leading to it |
| `HeapApi.Allocator.UnusedPage` | src/segment.c:96-106 | the first unused page of a segment, or all are in use |
| `HeapApi.Allocator.InstallPage` | src/arena.c:32-40 | the page, blank, is in use for the bin and in front of its list, with all other pages and lists kept, and all blocks kept when the segment is registered |
| `HeapApi.Allocator.SlabFree` | src/slab.c:164-202 | exactly that slot goes: in front of the local list if the caller owns the page, in front of the remote stack otherwise |
| `HeapApi.Allocator.LargeAlloc` | src/large.c:12-48 | null exactly when the system refuses, and then nothing changes; otherwise an aligned pointer and a record of the least mapping that holds it, to a new zeroed block of the size exactly when it fits |
| `HeapApi.Allocator.LargeFree` | src/large.c:50-81 | exactly that large block goes; nothing changes when no mapping holds the pointer |
| `HeapApi.Allocator.LargeFind` | src/large.c:83-97 | a record whose mapping holds the pointer, or none does; for a block, its own record |
| `Debug.Bitmap.Mark` | src/debug.c:30-44 | the byte update adds exactly one slot to the set, and passes exactly when it was not there |
| `Debug.Bitmap.Clear` | src/debug.c:46-60 | the byte update removes exactly one slot, and passes exactly when it was there |
| `HeapCheck.CountBits` | src/debug.c:87-93 | the popcounts add up to the number of marked slots |
| `HeapCheck.WalkLocal` | src/debug.c:103-129 | the walk ends on any links, and passes exactly when they spell a null-terminated list of at most capacity good entries |
| `HeapCheck.CheckPage` | src/debug.c:87-153 | passes exactly when `used` is the number of marked slots, used, local, remote and virgin slots add up to the capacity modulo 2^16, and the local list is null-terminated, as long as its counter and of accepted entries |
| `HeapCheck.CheckSegment` | src/debug.c:82-154 | the conjunction over the pages in use; the header page and unused pages hold anything |
| `HeapCheck.Check` | src/debug.c:72-162 | the conjunction over all arenas and segments |
| `HeapCheck.PassedPage` | src/debug.c:103-137 | a passed page has a duplicate-free local list as long as its counter, of accepted entries with clear bits; as many marked slots as `used`; and a full account of its slots modulo 2^16 |
| `HeapCheck.NumberReported` | src/debug.c:95-153 | whichever of `used`, the local count, the remote count or the bump offset of a passing page is changed alone, the check fails |
| `HeapCheck.BitReported` | src/debug.c:87-101 | and so it does when the bit of one slot is set or cleared alone |
| `HeapCheck.EntryInPage` | src/debug.c:20-28 | an accepted entry lies in the page exactly when it is less than 65536 slots from its start |
| `HeapCheck.FarEntryPasses` | src/debug.c:20-28 | an entry outside the page that the check accepts |
| `HeapCheck.QuiescentPasses` | src/debug.c:72-162 | the check passes on every page in every quiescent state of every run, whatever clients wrote into live slots |
| `HeapCheck.EveryPageShown` | src/debug.c:72-162 | every page state, at any address and slot size, has metadata and memory as that result takes them, with any words at all in its live slots |
| `HeapCheckRuns.CheckPasses` | src/debug.c:72-162 | debug_heap_check answers true in every quiescent state of the whole allocator reachable under H, on all metadata whose pages in use represent its pages; header and unused pages and live slots hold anything |

## Left out

- Weak memory ordering: all steps are sequentially consistent.
- Page retirement and segment destruction (src/arena.c:131-140, src/segment.c:90-94, src/segment.c:108-123, src/page.c:121-130): they have no callers.
- src/zone.c: wrappers over the macOS zone interface; its pressure relief may discard links stored in free slots, so the list invariants do not cover runs that use it.
- src/init.c: the bootstrap buffer and the one-time initialisation; realloc of a bootstrap pointer does not know the old size.
- my_posix_memalign and my_valloc: they only check arguments and call my_memalign.
- Floating-point rounding: the growth by 1.125 is modelled with exact reals.
- The operation counts of the statistics (`alloc_count`, `free_count`) and the high watermark: they would repeat the byte counters.
- Wrap-around of the 64-bit byte statistics.
- Threads whose tld_get fails: part of `HeapApi` (thread number 0), not of `Slabs`.
- A statistics flush is one step in `Slabs`, although the code adds to the arena's counters one after the other.
- `Slabs`, `Treiber` and `RegistryRuns` are state machines on values, because their subject is the interleaving; update in place is modelled in `PageObject`, `HeapApi`, `Registry`, `LargeList`, `Mapping`, `SizeClass` and `Debug`.
- The bin lists of the arenas are sequences in `HeapApi`; their doubly linked form is the same code as the large list, which `LargeList` models.
- Segment headers and large records are fields of the model's state and not bytes of its memory.
- HeapApi.Allocator.Realloc: a block that has to move is left out when malloc would leave the allocator out of order; bootstrap pointers and pointers into unused pages are left out.
- HeapApi.Allocator.ReallocSlab: leaves out the same moves.
- HeapApi.Allocator.ReallocLarge: leaves out the same moves; the pointer is a block's or in no mapping.
- HeapApi.Allocator.Move: leaves out the same moves.
- HeapApi.Allocator.Free: pointers into the middle of a block, into a segment header, or to a block already freed are left out; for pages with the bitmap the last are the subject of `PageLaws.BitmapExact`.
- Mapping.Os.MmapAligned: the page granularity of the system is not modelled.
