/** What a call needs to leave the allocator in order: sizes that do not wrap around, and room in the registry when
    it has to make a segment. Both conditions are exact. */
module HeapLimits {
  import opened Basics
  import opened Bits
  import opened Registry
  import opened Geometry
  import opened SizeClass
  import opened PageProtocol
  import opened HeapState
  import opened HeapSteps
  import opened HeapPaths
  import L = Large

  // ---- large allocations ----

  function OsAlign(alignment: nat, osPage: nat): nat { if osPage > alignment then osPage else alignment }

  /** The system's answer to the request of large_alloc_aligned. */
  function Granted(os: Os, size: nat, alignment: nat, osPage: nat): nat
    requires alignment > 0 && osPage > 0
  {
    os(L.Total(size, alignment, osPage), OsAlign(alignment, osPage))
  }

  /** The additions do not wrap around, and the block is not an empty one at the end of its mapping. */
  predicate LargeFits(size: nat, alignment: nat, osPage: nat)
    requires alignment > 0 && osPage > 0
  {
    L.NoWrap(size, alignment, osPage) && (size > 0 || L.HeaderSpace(alignment) % osPage != 0)
  }

  /** The state after a large allocation at `base`, `space` bytes of which lie before the block. */
  function WithLarge(s: State, base: nat, total: nat, space: nat, size: nat): State {
    s.(mem := Zeroed(s.mem, base, total), large := [Large(base, total, base + space, size)] + s.large)
  }

  /** The newest large block is not inside its mapping. */
  ghost predicate Overhangs(large: seq<Large>, ptr: nat, size: nat) {
    && large != [] && large[0].ptr == ptr && large[0].userSize == size
    && !(ptr < large[0].base + large[0].size && ptr + size <= large[0].base + large[0].size)
  }

  lemma OverhangingIsBad(s: State, ptr: nat, size: nat)
    requires Overhangs(s.large, ptr, size)
    ensures !Valid(s)
  {
    assert !LargeOk(s, 0);
  }

  ghost predicate Sizes(osPage: nat, alignment: nat, size: nat) {
    && PowerOfTwo(osPage) && MIN_ALIGN <= osPage <= SEGMENT_SIZE
    && PowerOfTwo(alignment) && MIN_ALIGN <= alignment < WORD && size < WORD
  }

  lemma AlignmentBelow(alignment: nat)
    requires PowerOfTwo(alignment) && alignment < WORD
    ensures alignment <= WORD / 2
  {
    WordPower(WORD);
    PowersHalf(alignment, WORD);
  }

  lemma WordPower(w: nat)
    requires w == WORD
    ensures PowerOfTwo(w)
  {
    SegmentPower();
    PowerTimes(PAGE_SIZE, PAGE_SIZE);
    PowerTimes(PAGE_SIZE * PAGE_SIZE, PAGE_SIZE * PAGE_SIZE);
  }

  lemma {:induction false} PowerTimes(a: nat, b: nat)
    requires PowerOfTwo(a) && PowerOfTwo(b)
    ensures PowerOfTwo(a * b)
  {
    if a > 1 {
      PowerTimes(a / 2, b);
      Doubled(a / 2 * b);
      assert a * b == 2 * (a / 2 * b);
    }
  }

  lemma Doubled(x: nat)
    requires PowerOfTwo(x)
    ensures PowerOfTwo(2 * x)
  {
  }

  /** Where the block lies. */
  lemma LargePlace(osPage: nat, alignment: nat, size: nat, base: nat)
    requires Sizes(osPage, alignment, size) && base % OsAlign(alignment, osPage) == 0
    ensures var ptr, end := base + L.HeaderSpace(alignment), base + L.Total(size, alignment, osPage);
            && LARGE_HEADER <= L.HeaderSpace(alignment) && ptr % alignment == 0 && ptr % MIN_ALIGN == 0
            && (LargeFits(size, alignment, osPage) <==> ptr < end && ptr + size <= end)
  {
    AlignmentBelow(alignment);
    SegmentPower();
    L.PlaceAligned(alignment, osPage, base);
    MultipleOfPower(base + L.HeaderSpace(alignment), alignment, MIN_ALIGN);
    L.FitsIff(size, alignment, osPage);
    if L.NoWrap(size, alignment, osPage) { L.BlockPlace(size, alignment, osPage, base); }
  }

  /** A large allocation that the system grants leaves the allocator in order exactly when its size does not wrap
      around once header and rounding are added, and it is not an empty block behind whole pages of header. */
  lemma LargeFitsIff(s: State, os: Os, osPage: nat, alignment: nat, size: nat)
    requires Valid(s) && Honest(s, os) && Sizes(osPage, alignment, size) && Granted(os, size, alignment, osPage) != 0
    ensures var base, space := Granted(os, size, alignment, osPage), L.HeaderSpace(alignment);
            var s' := WithLarge(s, base, L.Total(size, alignment, osPage), space, size);
            && (base + space) % alignment == 0
            && if LargeFits(size, alignment, osPage) then
                 Valid(s') && Gains(s, s', base + space, size) && Zeros(s'.mem, base + space, size)
               else
                 !Valid(s') && Overhangs(s'.large, base + space, size)
  {
    var base, total := Granted(os, size, alignment, osPage), L.Total(size, alignment, osPage);
    LargePlace(osPage, alignment, size, base);
    LargeAdded(s, base, total, L.HeaderSpace(alignment), size);
  }

  lemma LargeAdded(s: State, base: nat, total: nat, space: nat, size: nat)
    requires Valid(s) && 0 < base && base + total <= WORD && Unmapped(s, base, total)
    requires LARGE_HEADER <= space && (base + space) % MIN_ALIGN == 0
    ensures var s', ptr := WithLarge(s, base, total, space, size), base + space;
            if ptr < base + total && ptr + size <= base + total then
              Valid(s') && Gains(s, s', ptr, size) && Zeros(s'.mem, ptr, size)
            else
              !Valid(s') && Overhangs(s'.large, ptr, size)
  {
    var s', ptr := WithLarge(s, base, total, space, size), base + space;
    if ptr < base + total && ptr + size <= base + total {
      AddLarge(s, s', Large(base, total, ptr, size));
    } else {
      OverhangingIsBad(s', ptr, size);
    }
  }

  // ---- segments ----

  /** The newest segment of the arena is not registered. */
  ghost predicate Orphaned(segments: map<nat, seq<nat>>, cells: seq<nat>, arena: nat) {
    arena in segments && segments[arena] != [] && segments[arena][0] !in cells
  }

  lemma OrphanedIsBad(s: State, arena: nat)
    requires Orphaned(s.segments, s.cells, arena)
    ensures !Valid(s)
  {
    assert !IsSegment(s.cells, s.segments[arena][0]);
  }

  /** No pointer into the segment leads anywhere. */
  ghost predicate Beyond(cells: seq<nat>, large: seq<Large>, seg: nat) {
    forall ptr: nat | seg <= ptr < seg + SEGMENT_SIZE :: Astray(cells, large, ptr)
  }

  lemma NewIsUnregistered(s: State, os: Os)
    requires Honest(s, os) && os(SEGMENT_SIZE, SEGMENT_SIZE) != 0
    ensures os(SEGMENT_SIZE, SEGMENT_SIZE) !in s.cells
    ensures Unmapped(s, os(SEGMENT_SIZE, SEGMENT_SIZE), SEGMENT_SIZE)
  {
    var seg := os(SEGMENT_SIZE, SEGMENT_SIZE);
    assert Unmapped(s, seg, SEGMENT_SIZE);
    assert IsSegment(s.cells, seg) ==> Apart(seg, SEGMENT_SIZE, seg, SEGMENT_SIZE);
  }

  /** A new segment leaves the allocator in order exactly when the registry has room for it. Without room, no
      pointer into it can be freed. */
  lemma SegmentRoomIff(s: State, arena: nat, os: Os)
    requires Valid(s) && Honest(s, os) && os(SEGMENT_SIZE, SEGMENT_SIZE) != 0
    ensures var seg := os(SEGMENT_SIZE, SEGMENT_SIZE);
            var s' := WithSegment(s, arena, seg);
            && PageStart(seg, 1) !in s.pages
            && if 0 in s.cells then
                 Valid(s') && Same(s, s') && IsSegment(s'.cells, seg)
               else
                 !Valid(s') && Orphaned(s'.segments, s'.cells, arena) && Beyond(s'.cells, s'.large, seg)
  {
    var seg := os(SEGMENT_SIZE, SEGMENT_SIZE);
    if 0 in s.cells {
      NewSegmentOk(s, arena, os);
    } else {
      NewIsUnregistered(s, os);
      NoPageYet(s, seg);
      InsertIff(s.cells, seg, seg);
      OrphanedIsBad(WithSegment(s, arena, seg), arena);
      forall ptr: nat | seg <= ptr < seg + SEGMENT_SIZE ensures Astray(Insert(s.cells, seg), s.large, ptr) {
        FoundIffRoom(s.cells, seg, ptr);
      }
    }
  }

  /** The pointers of a segment that was given to segment_register lead back to it exactly when the table had an
      empty cell; otherwise they lead to no segment. */
  lemma FoundIffRoom(cells: seq<nat>, seg: nat, ptr: nat)
    requires Table(cells) && seg % SEGMENT_SIZE == 0 && seg != 0 && seg !in cells
    requires seg <= ptr < seg + SEGMENT_SIZE
    ensures |Insert(cells, seg)| == REGISTRY_SIZE
    ensures PtrToSegment(Insert(cells, seg), ptr) == if 0 in cells then seg else 0
  {
    InsertIff(cells, seg, seg);
    LookupIff(Insert(cells, seg), seg);
    Residue(ptr, seg / SEGMENT_SIZE, ptr - seg, SEGMENT_SIZE);
    SegmentBaseIs(ptr);
  }

  // ---- when an allocation has to make a segment ----

  function BinList(s: State, arena: nat, bin: nat): seq<nat> {
    if (arena, bin) in s.bins then s.bins[(arena, bin)] else []
  }

  function SegmentList(s: State, arena: nat): seq<nat> {
    if arena in s.segments then s.segments[arena] else []
  }

  /** No page of the list is unowned with virgin slots. */
  ghost predicate NoneUnowned(pages: map<nat, Slab>, list: seq<nat>) {
    forall i | 0 <= i < |list| :: list[i] in pages && !Unowned(pages[list[i]].page)
  }

  ghost predicate SegmentUsed(pages: map<nat, Slab>, seg: nat) {
    forall i | 0 < i < PAGES_PER_SEGMENT :: PageStart(seg, i) in pages
  }

  /** No segment of the list has an unused page. */
  ghost predicate AllUsed(pages: map<nat, Slab>, list: seq<nat>) {
    forall j | 0 <= j < |list| :: SegmentUsed(pages, list[j])
  }

  /** The same pages are in use, and the same ones are unowned with virgin slots. */
  ghost predicate AlikePages(pages: map<nat, Slab>, pages': map<nat, Slab>) {
    && pages'.Keys == pages.Keys
    && forall start | start in pages :: Unowned(pages'[start].page) <==> Unowned(pages[start].page)
  }

  lemma AlikeLists(pages: map<nat, Slab>, pages': map<nat, Slab>, list: seq<nat>)
    requires AlikePages(pages, pages')
    ensures NoneUnowned(pages', list) <==> NoneUnowned(pages, list)
    ensures AllUsed(pages', list) <==> AllUsed(pages, list)
  {
    assert forall start :: start in pages' <==> start in pages.Keys;
    forall j | 0 <= j < |list| ensures SegmentUsed(pages', list[j]) <==> SegmentUsed(pages, list[j]) {}
  }

  /** The thread has no page with free slots in its cache. */
  ghost predicate CacheSpent(s: State, t: Tid, bin: nat) {
    t != NO_TLD && (t, bin) in s.cache && s.cache[(t, bin)] in s.pages ==>
      AllLive(s.pages[s.cache[(t, bin)]].page)
  }

  /** The arena has no page to take for the bin, and the system grants a segment that the registry has no room for. */
  ghost predicate ArenaLost(s: State, arena: nat, bin: nat, os: Os) {
    && 0 !in s.cells && os(SEGMENT_SIZE, SEGMENT_SIZE) != 0
    && NoneUnowned(s.pages, BinList(s, arena, bin)) && AllUsed(s.pages, SegmentList(s, arena))
  }

  /** An allocation of at most 128 KB ends in a segment that cannot be found. */
  ghost predicate SlabLost(s: State, t: Tid, arena: Option<nat>, size: nat, os: Os) {
    exists bin :: LeastFit(bin, size) && BinLost(s, t, arena, bin, os)
  }

  ghost predicate BinLost(s: State, t: Tid, arena: Option<nat>, bin: nat, os: Os) {
    && arena.Some? && ClassSize(bin) <= PAGE_SIZE / 2
    && CacheSpent(s, t, bin) && ArenaLost(s, arena.value, bin, os)
  }

  lemma OneBin(b: nat, c: nat, size: nat)
    requires LeastFit(b, size) && LeastFit(c, size)
    ensures b == c
  {
  }

  ghost predicate LargeLost(size: nat, alignment: nat, os: Os, osPage: nat)
    requires alignment > 0 && osPage > 0
  {
    Granted(os, size, alignment, osPage) != 0 && !LargeFits(size, alignment, osPage)
  }

  /** An empty request counts as one byte. */
  function Bytes(size: nat): nat { if size == 0 then 1 else size }

  /** A call of malloc leaves the allocator out of order. */
  ghost predicate Lost(s: State, t: Tid, arena: Option<nat>, size: nat, os: Os, osPage: nat)
    requires osPage > 0
  {
    if size > MEDIUM_MAX then LargeLost(size, MIN_ALIGN, os, osPage) else SlabLost(s, t, arena, Bytes(size), os)
  }

  /** What the client has then: a pointer that free does not find, or a block outside its mapping. */
  ghost predicate Strays(s: State, ptr: nat, size: nat) {
    ptr != 0 && (Foreign(s, ptr) || Overhangs(s.large, ptr, size))
  }

  lemma NarrowFits(size: nat, osPage: nat)
    requires 0 < size <= MEDIUM_MAX && 0 < osPage <= SEGMENT_SIZE
    ensures LargeFits(size, MIN_ALIGN, osPage)
  {
    SegmentPower();
    L.HeaderBounds(MIN_ALIGN);
  }

  // ---- when an allocation answers null, and what it gains otherwise ----

  /** There is no arena, or it has no page to take and the system refuses a segment. */
  ghost predicate ArenaDenies(s: State, arena: Option<nat>, bin: nat, os: Os) {
    arena.Some? ==>
      && os(SEGMENT_SIZE, SEGMENT_SIZE) == 0
      && NoneUnowned(s.pages, BinList(s, arena.value, bin)) && AllUsed(s.pages, SegmentList(s, arena.value))
  }

  /** Dropping a full page from a cache changes nothing for the arena. */
  lemma AlikeArena(s: State, s': State, arena: nat, bin: nat, os: Os)
    requires AlikePages(s.pages, s'.pages) && s'.bins == s.bins && s'.segments == s.segments && s'.cells == s.cells
    ensures ArenaLost(s', arena, bin, os) <==> ArenaLost(s, arena, bin, os)
    ensures ArenaDenies(s', Some(arena), bin, os) <==> ArenaDenies(s, Some(arena), bin, os)
  {
    AlikeLists(s.pages, s'.pages, BinList(s, arena, bin));
    AlikeLists(s.pages, s'.pages, SegmentList(s, arena));
  }

  ghost predicate BinDenies(s: State, t: Tid, arena: Option<nat>, bin: nat, size: nat, os: Os, osPage: nat)
    requires osPage > 0
  {
    LeastFit(bin, size) &&
    if ClassSize(bin) <= PAGE_SIZE / 2 then CacheSpent(s, t, bin) && ArenaDenies(s, arena, bin, os)
    else Granted(os, size, MIN_ALIGN, osPage) == 0
  }

  ghost predicate SlabDenies(s: State, t: Tid, arena: Option<nat>, size: nat, os: Os, osPage: nat)
    requires osPage > 0
  {
    exists bin :: BinDenies(s, t, arena, bin, size, os, osPage)
  }

  /** A call of malloc answers null. */
  ghost predicate Denied(s: State, t: Tid, arena: Option<nat>, size: nat, os: Os, osPage: nat)
    requires osPage > 0
  {
    if size > MEDIUM_MAX then Granted(os, size, MIN_ALIGN, osPage) == 0
    else SlabDenies(s, t, arena, Bytes(size), os, osPage)
  }

  ghost predicate InSlab(s: State, ptr: nat, n: nat) { exists start, k :: SlabBlock(s, start, k, ptr, n) }

  /** The block is a slot of page `start`, which serves the bin. A caller with thread-local data owns that page and has
      it in its cache; no other cache entry has changed. For one without, the page has no owner and no cache has
      changed. */
  ghost predicate SettledAt(s: State, s': State, t: Tid, bin: nat, ptr: nat, start: nat) {
    && start in s'.pages && s'.pages[start].bin == bin
    && (exists k :: SlabBlock(s', start, k, ptr, SlotSize(ClassSize(bin))))
    && if t == NO_TLD then s'.pages[start].page.owner == None && s'.cache == s.cache
       else s'.pages[start].page.owner == Some(t) && s'.cache == s.cache[(t, bin) := start]
  }

  ghost predicate Settled(s: State, s': State, t: Tid, bin: nat, ptr: nat) {
    exists start :: SettledAt(s, s', t, bin, ptr, start)
  }

  /** The client gains a slot of the bin, or a large block of the size when the bin is not served from pages. */
  ghost predicate BinGains(s: State, s': State, t: Tid, ptr: nat, bin: nat, size: nat, os: Os, osPage: nat)
    requires osPage > 0
  {
    LeastFit(bin, size) &&
    if ClassSize(bin) <= PAGE_SIZE / 2 then
      Gains(s, s', ptr, SlotSize(ClassSize(bin))) && Settled(s, s', t, bin, ptr)
    else Gains(s, s', ptr, size) && ptr == Granted(os, size, MIN_ALIGN, osPage) + L.HeaderSpace(MIN_ALIGN)
  }

  ghost predicate SlabGains(s: State, s': State, t: Tid, ptr: nat, size: nat, os: Os, osPage: nat)
    requires osPage > 0
  {
    exists bin :: BinGains(s, s', t, ptr, bin, size, os, osPage)
  }

  lemma SlabGainsBlock(s: State, s': State, t: Tid, ptr: nat, size: nat, os: Os, osPage: nat)
    requires osPage > 0 && 0 < size <= MEDIUM_MAX && SlabGains(s, s', t, ptr, size, os, osPage)
    ensures GainsBlock(s, s', ptr, size)
  {
    var bin :| BinGains(s, s', t, ptr, bin, size, os, osPage);
    var n := if ClassSize(bin) <= PAGE_SIZE / 2 then SlotSize(ClassSize(bin)) else size;
    assert BinGives(bin, size, n) && Gains(s, s', ptr, n);
  }

  /** An empty request gains what a request of one byte does. */
  lemma BytesGains(s: State, s': State, ptr: nat, size: nat, asked: nat)
    requires size <= MEDIUM_MAX && asked == Bytes(size) && GainsBlock(s, s', ptr, asked)
    ensures GainsBlock(s, s', ptr, size)
  {
    var n: nat :| BlockSize(asked, n) && Gains(s, s', ptr, n);
    var bin :| BinGives(bin, asked, n);
    if size == 0 { EmptyFits(bin, size, asked); }
    assert BinGives(bin, size, n);
    assert BlockSize(size, n);
  }

  lemma AskedGains(s: State, s': State, t: Tid, ptr: nat, size: nat, asked: nat, os: Os, osPage: nat)
    requires osPage > 0 && size <= MEDIUM_MAX && asked == Bytes(size) && SlabGains(s, s', t, ptr, asked, os, osPage)
    ensures GainsBlock(s, s', ptr, size)
  {
    SlabGainsBlock(s, s', t, ptr, asked, os, osPage);
    BytesGains(s, s', ptr, size, asked);
  }

  /** The block of my_calloc, cleared unless it is known to be zero. */
  lemma ClearedGains(s: State, s1: State, s2: State, t: Tid, ptr: nat, size: nat, total: nat, os: Os, osPage: nat)
    requires osPage > 0 && size <= MEDIUM_MAX && total == Bytes(size) && SlabGains(s, s1, t, ptr, total, os, osPage)
    requires Valid(s1) && (s2 == s1 || s2 == s1.(mem := Zeroed(s1.mem, ptr, total)))
    ensures Valid(s2) && GainsBlock(s, s2, ptr, size)
  {
    SlabGainsBlock(s, s1, t, ptr, total, os, osPage);
    if s2 != s1 { ClearedOk(s, s1, s2, ptr, total); }
    BytesGains(s, s2, ptr, size, total);
  }

  lemma EmptyFits(bin: nat, size: nat, asked: nat)
    requires size == 0 && asked == 1 && LeastFit(bin, asked)
    ensures LeastFit(bin, size) && ClassSize(bin) <= PAGE_SIZE / 2
  {
    SmallClass(size);
    assert bin == size;
  }

  /** The one bin of a size decides. */
  lemma BinDecides(s: State, t: Tid, arena: Option<nat>, bin: nat, size: nat, os: Os, osPage: nat)
    requires osPage > 0 && LeastFit(bin, size)
    ensures SlabDenies(s, t, arena, size, os, osPage) <==> BinDenies(s, t, arena, bin, size, os, osPage)
    ensures SlabLost(s, t, arena, size, os) <==> BinLost(s, t, arena, bin, os)
  {
    forall b | LeastFit(b, size) ensures b == bin { OneBin(b, bin, size); }
  }

  // ---- aligned slots ----

  /** Slots whose size is a multiple of an alignment of at most a page are aligned. */
  lemma SlotMultiple(s: State, ptr: nat, n: nat, a: nat)
    requires Valid(s) && InSlab(s, ptr, n) && PowerOfTwo(a) && a <= PAGE_SIZE && n % a == 0
    ensures ptr % a == 0
  {
    var start, k :| SlabBlock(s, start, k, ptr, n);
    assert SlabOk(s, start);
    SegmentPower();
    MultipleOfPower(start, PAGE_SIZE, a);
    SlotAligned(start, n, k, a);
  }

  /** A call of my_memalign leaves the allocator out of order. */
  ghost predicate MemalignLost(s: State, t: Tid, arena: Option<nat>, alignment: nat, size: nat, os: Os, osPage: nat)
    requires osPage > 0
  {
    match L.Memalign(alignment, size)
    case Invalid => false
    case Plain => Lost(s, t, arena, size, os, osPage)
    case Aligned => alignment > 0 && LargeLost(size, alignment, os, osPage)
    case Slab(rounded) => SlabLost(s, t, arena, rounded, os)
  }

  /** A call of my_memalign answers null. */
  ghost predicate MemalignDenied(s: State, t: Tid, arena: Option<nat>, alignment: nat, size: nat, os: Os, osPage: nat)
    requires osPage > 0
  {
    match L.Memalign(alignment, size)
    case Invalid => true
    case Plain => Denied(s, t, arena, size, os, osPage)
    case Aligned => alignment > 0 && Granted(os, size, alignment, osPage) == 0
    case Slab(rounded) => SlabDenies(s, t, arena, rounded, os, osPage)
  }

  /** The alignment of what my_memalign returns: as asked, except that a slot is only known to be when its size is a
      multiple, and that a request which falls back to a large block never is. */
  ghost predicate Placed(alignment: nat, size: nat, ptr: nat, osPage: nat)
    requires alignment > 0
  {
    match L.Memalign(alignment, size)
    case Slab(rounded) => forall bin | LeastFit(bin, rounded) :: SlotPlaced(bin, alignment, ptr, osPage)
    case _ => ptr % alignment == 0
  }

  predicate SlotPlaced(bin: nat, alignment: nat, ptr: nat, osPage: nat)
    requires alignment > 0
  {
    if ClassSize(bin) <= PAGE_SIZE / 2 then SlotSize(ClassSize(bin)) % alignment == 0 ==> ptr % alignment == 0
    else osPage >= 32 ==> ptr % alignment != 0
  }

  /** What the client gains from my_memalign: what malloc gives, the size itself in a mapping of its own, or the slot
      for the rounded size. */
  ghost predicate MemalignGains(s: State, s': State, alignment: nat, size: nat, ptr: nat) {
    match L.Memalign(alignment, size)
    case Invalid => false
    case Plain => GainsBlock(s, s', ptr, size)
    case Aligned => Gains(s, s', ptr, size)
    case Slab(rounded) => GainsBlock(s, s', ptr, rounded)
  }

  lemma PlainPlaced(s: State, s': State, alignment: nat, size: nat, ptr: nat, osPage: nat)
    requires Valid(s') && GainsBlock(s, s', ptr, size) && L.Memalign(alignment, size).Plain?
    ensures alignment > 0 && Placed(alignment, size, ptr, osPage)
  {
    L.MemalignRoutes(alignment, size);
    var n: nat :| BlockSize(size, n) && Gains(s, s', ptr, n);
    BlocksDisjoint(s', ptr, n, ptr, n);
    SegmentPower();
    MultipleOfPower(ptr, MIN_ALIGN, alignment);
  }

  lemma SlabPlaced(s: State, s': State, t: Tid, alignment: nat, size: nat, rounded: nat, ptr: nat, os: Os, osPage: nat)
    requires Valid(s') && PowerOfTwo(osPage) && Honest(s, os) && L.Memalign(alignment, size) == L.Slab(rounded)
    requires MIN_ALIGN <= osPage && SlabGains(s, s', t, ptr, rounded, os, osPage)
    ensures alignment > 0 && Placed(alignment, size, ptr, osPage)
  {
    L.MemalignRoutes(alignment, size);
    var bin :| BinGains(s, s', t, ptr, bin, rounded, os, osPage);
    if ClassSize(bin) <= PAGE_SIZE / 2 {
      var start :| SettledAt(s, s', t, bin, ptr, start);
      if SlotSize(ClassSize(bin)) % alignment == 0 { SlotMultiple(s', ptr, SlotSize(ClassSize(bin)), alignment); }
    } else if osPage >= 32 {
      GrantAligned(s, os, rounded, MIN_ALIGN, osPage);
      L.MemalignFallback(alignment, size, osPage, Granted(os, rounded, MIN_ALIGN, osPage));
    }
    forall b | LeastFit(b, rounded) ensures SlotPlaced(b, alignment, ptr, osPage) { OneBin(b, bin, rounded); }
  }

  lemma GrantAligned(s: State, os: Os, size: nat, alignment: nat, osPage: nat)
    requires Honest(s, os) && 0 < alignment <= osPage
    ensures Granted(os, size, alignment, osPage) % osPage == 0
  {
    HonestAligned(s, os, L.Total(size, alignment, osPage), osPage);
  }

  lemma HonestAligned(s: State, os: Os, n: nat, a: nat)
    requires Honest(s, os) && a > 0
    ensures os(n, a) % a == 0
  {
    if os(n, a) == 0 { Residue(0, 0, 0, a); }
  }

  // ---- when realloc leaves a block where it is ----

  ghost predicate StaysSlot(slab: Slab, size: nat) { size <= slab.size && LeastFit(slab.bin, size) }

  ghost predicate StaysMapped(large: seq<Large>, ptr: nat, size: nat) {
    forall i | 0 <= i < |large| && Covers(large[i], ptr) :: size <= large[i].size - (ptr - large[i].base)
  }

  /** A live block, or a pointer no mapping holds, is left where it is. */
  ghost predicate Stays(s: State, ptr: nat, size: nat) {
    && |s.cells| == REGISTRY_SIZE
    && var seg := PtrToSegment(s.cells, ptr);
    if seg == 0 then StaysMapped(s.large, ptr, size)
    else seg <= ptr && PtrToPage(seg, ptr) in s.pages && StaysSlot(s.pages[PtrToPage(seg, ptr)], size)
  }

  lemma SlotBelow(s: State, start: nat)
    requires Valid(s) && start in s.pages
    ensures s.pages[start].size <= MEDIUM_MAX
  {
    assert SlabOk(s, start);
  }
}
