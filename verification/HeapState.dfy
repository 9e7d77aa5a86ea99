/** The whole allocator between calls: memory, slab pages, caches, the registry and the large list,
    and the client's view of it as a set of disjoint live blocks. */
module HeapState {
  import opened Basics
  import opened Bits
  import opened Registry
  import opened Geometry
  import opened SizeClass
  import opened PageProtocol
  import opened PageSolo

  /** A byte of memory: what a client or the system put there, or byte `i` of a link. */
  datatype Byte = Raw(value: bv8) | LinkByte(ptr: Ptr, i: nat)

  const ZERO := Raw(0)

  type Memory = nat -> Byte

  /** A page in use, the bin it serves and its slot size. */
  datatype Slab = Slab(page: Page, bin: nat, size: nat)

  /** A large allocation: its mapping, and the pointer and size its client has. */
  datatype Large = Large(base: nat, size: nat, ptr: nat, userSize: nat)

  type Bins = map<(nat, nat), seq<nat>>

  datatype State = State(
    mem: Memory,
    pages: map<nat, Slab>,             // by start address
    cache: map<(Tid, nat), nat>,       // bin_page of every thread
    bins: Bins,                        // by arena and bin: the pages of the bin list
    segments: map<nat, seq<nat>>,      // by arena: its segments
    cells: seq<nat>,                   // the segment registry
    large: seq<Large>)                 // the large list

  /** The thread number of callers without thread-local data; all others are positive. */
  const NO_TLD: Tid := 0

  // ---- writes ----

  /** Memory with `n` zero bytes at `a`. */
  function Zeroed(mem: Memory, a: nat, n: nat): Memory {
    (x: nat) => if a <= x < a + n then ZERO else mem(x)
  }

  /** Memory with `n` bytes copied from `from` to `to`. */
  function Copied(mem: Memory, to: nat, from: nat, n: nat): Memory {
    (x: nat) => if to <= x < to + n then mem(from + (x - to)) else mem(x)
  }

  /** Memory with a link stored in the word at `a`. */
  function WithLink(mem: Memory, a: nat, ptr: Ptr): Memory {
    (x: nat) => if a <= x < a + 8 then LinkByte(ptr, x - a) else mem(x)
  }

  // ---- what holds between calls ----

  ghost predicate Zeros(mem: Memory, a: nat, n: nat) {
    forall x | a <= x < a + n :: mem(x) == ZERO
  }

  ghost predicate Linked(mem: Memory, a: nat, ptr: Ptr) {
    forall i | 0 <= i < 8 :: mem(a + i) == LinkByte(ptr, i)
  }

  /** Virgin slots are zero, and slots on a free list hold their link. */
  ghost predicate SlotMem(mem: Memory, start: nat, slab: Slab, k: nat) {
    && (slab.page.bump <= k ==> Zeros(mem, SlotAddr(start, slab.size, k), slab.size))
    && (k < slab.page.bump && k !in slab.page.live ==>
          Linked(mem, SlotAddr(start, slab.size, k), Fetch(slab.page.link, k)))
  }

  ghost predicate PageMem(mem: Memory, start: nat, slab: Slab) {
    forall k: nat {:trigger SlotMem(mem, start, slab, k)} | k < slab.page.cap :: SlotMem(mem, start, slab, k)
  }

  ghost predicate SlabShape(slab: Slab) {
    && MIN_ALIGN <= slab.size <= PAGE_SIZE / 2 && slab.size % MIN_ALIGN == 0
    && slab.page.cap == |slab.page.link| == Capacity(slab.size)
    && slab.page.bump <= slab.page.cap
    && (forall k | k in slab.page.live :: k < slab.page.bump)
    && slab.page.exited == {} && slab.page.owner != Some(NO_TLD)
  }

  /** A slab serves a bin that fits half a page. */
  ghost predicate SlabBin(slab: Slab) {
    slab.bin < BIN_COUNT && ClassSize(slab.bin) <= PAGE_SIZE / 2 && slab.size == SlotSize(ClassSize(slab.bin))
  }

  ghost predicate IsSegment(cells: seq<nat>, b: nat) {
    b in cells && b != 0
  }

  /** A data page of a registered segment. */
  ghost predicate InSegment(cells: seq<nat>, start: nat) {
    start % PAGE_SIZE == 0 && IsSegment(cells, SegmentBase(start)) && SegmentBase(start) < start
  }

  ghost predicate SlabOk(s: State, start: nat) {
    && start in s.pages
    && InSegment(s.cells, start)
    && SlabShape(s.pages[start])
    && SlabBin(s.pages[start])
    && PageMem(s.mem, start, s.pages[start])
  }

  ghost predicate QuietAt(pages: map<nat, Slab>, start: nat) {
    start in pages && Quiet(pages[start].page)
  }

  ghost predicate Slabs(s: State) {
    && (forall start {:trigger SlabOk(s, start)} | start in s.pages :: SlabOk(s, start))
    && (forall start {:trigger QuietAt(s.pages, start)} | start in s.pages :: QuietAt(s.pages, start))
  }

  ghost predicate SegmentsOk(s: State) {
    && Table(s.cells)
    && (forall b: nat | IsSegment(s.cells, b) :: b % SEGMENT_SIZE == 0 && b + SEGMENT_SIZE <= WORD)
    && (forall b: nat, i: nat | IsSegment(s.cells, b) && 0 < i < PAGES_PER_SEGMENT && PageStart(b, i) !in s.pages ::
          Zeros(s.mem, PageStart(b, i), PAGE_SIZE))
    && (forall a, i | a in s.segments && 0 <= i < |s.segments[a]| :: IsSegment(s.cells, s.segments[a][i]))
  }

  ghost predicate ListsOk(s: State) {
    && (forall t, b | (t, b) in s.cache ::
          var start := s.cache[(t, b)];
          t != NO_TLD && start in s.pages && s.pages[start].bin == b && t in s.pages[start].page.cached)
    && (forall a, b, i | (a, b) in s.bins && 0 <= i < |s.bins[(a, b)]| ::
          s.bins[(a, b)][i] in s.pages && s.pages[s.bins[(a, b)][i]].bin == b)
  }

  /** The ranges from `a` and from `b` do not overlap. */
  predicate Apart(a: nat, n: nat, b: nat, m: nat) {
    a + n <= b || b + m <= a
  }

  ghost predicate LargeOk(s: State, i: nat) {
    && i < |s.large|
    && var la := s.large[i];
    && 0 < la.base && la.base + la.size <= WORD
    && la.base + LARGE_HEADER <= la.ptr < la.base + la.size && la.ptr + la.userSize <= la.base + la.size
    && la.ptr % MIN_ALIGN == 0
    && (forall b: nat | IsSegment(s.cells, b) :: Apart(la.base, la.size, b, SEGMENT_SIZE))
  }

  ghost predicate Larges(s: State) {
    && (forall i: nat {:trigger LargeOk(s, i)} | i < |s.large| :: LargeOk(s, i))
    && (forall i, j | 0 <= i < j < |s.large| ::
          Apart(s.large[i].base, s.large[i].size, s.large[j].base, s.large[j].size))
  }

  ghost predicate Valid(s: State) {
    Slabs(s) && SegmentsOk(s) && ListsOk(s) && Larges(s)
  }

  // ---- the client's view ----

  ghost predicate SlabBlock(s: State, start: nat, k: nat, ptr: nat, n: nat) {
    && start in s.pages && k in s.pages[start].page.live
    && ptr == SlotAddr(start, s.pages[start].size, k) && n == s.pages[start].size
  }

  ghost predicate LargeBlock(s: State, i: nat, ptr: nat, n: nat) {
    i < |s.large| && s.large[i].ptr == ptr && s.large[i].userSize == n
  }

  /** The client holds a block of `n` usable bytes at `ptr`. */
  ghost predicate IsBlock(s: State, ptr: nat, n: nat) {
    (exists start, k :: SlabBlock(s, start, k, ptr, n)) || (exists i :: LargeBlock(s, i, ptr, n))
  }

  /** The slot of a slab block lies in a data page of a registered segment. */
  lemma SlabRange(s: State, start: nat, k: nat)
    requires Valid(s) && start in s.pages && k < s.pages[start].page.cap
    ensures var a, n := SlotAddr(start, s.pages[start].size, k), s.pages[start].size;
            && start <= a && a + n <= start + PAGE_SIZE && a % MIN_ALIGN == 0
            && SegmentBase(start) + PAGE_SIZE <= start && start + PAGE_SIZE <= SegmentBase(start) + SEGMENT_SIZE
  {
    assert SlabOk(s, start);
    SlotRange(start, s.pages[start].size, k);
    DataPageRange(start);
  }

  lemma SlotRange(start: nat, size: nat, k: nat)
    requires start % PAGE_SIZE == 0 && MIN_ALIGN <= size <= PAGE_SIZE / 2 && size % MIN_ALIGN == 0 && k < Capacity(size)
    ensures start <= SlotAddr(start, size, k) && SlotAddr(start, size, k) + size <= start + PAGE_SIZE
    ensures SlotAddr(start, size, k) % MIN_ALIGN == 0
  {
    SlotInPage(start, size, k);
    PageAligned(start);
    SlotAligned(start, size, k, MIN_ALIGN);
  }

  lemma DataPageRange(start: nat)
    requires start % PAGE_SIZE == 0 && SegmentBase(start) < start
    ensures SegmentBase(start) + PAGE_SIZE <= start && start + PAGE_SIZE <= SegmentBase(start) + SEGMENT_SIZE
  {
    var i := PageInSegment(start);
  }

  lemma PageAligned(start: nat)
    requires start % PAGE_SIZE == 0
    ensures start % MIN_ALIGN == 0
  {
  }

  /** Two slots are the same or do not overlap. */
  lemma SlotsDisjoint(s: State, start: nat, k: nat, start': nat, k': nat)
    requires Valid(s) && start in s.pages && k < s.pages[start].page.cap
    requires start' in s.pages && k' < s.pages[start'].page.cap && (start != start' || k != k')
    ensures Apart(SlotAddr(start, s.pages[start].size, k), s.pages[start].size,
                  SlotAddr(start', s.pages[start'].size, k'), s.pages[start'].size)
  {
    SlabRange(s, start, k);
    SlabRange(s, start', k');
    if start == start' {
      var size := s.pages[start].size;
      if k < k' { SlotsApart(start, size, k, k'); } else { SlotsApart(start, size, k', k); }
    } else {
      assert SlabOk(s, start) && SlabOk(s, start');
      if start < start' { PagesApart(start, start'); } else { PagesApart(start', start); }
    }
  }

  /** A slot does not overlap a large mapping. */
  lemma SlotLargeDisjoint(s: State, start: nat, k: nat, i: nat)
    requires Valid(s) && start in s.pages && k < s.pages[start].page.cap && i < |s.large|
    ensures Apart(SlotAddr(start, s.pages[start].size, k), s.pages[start].size, s.large[i].base, s.large[i].size)
  {
    SlabRange(s, start, k);
    assert SlabOk(s, start) && LargeOk(s, i);
  }

  lemma LiveInPage(s: State, start: nat, k: nat)
    requires Valid(s) && start in s.pages && k in s.pages[start].page.live
    ensures k < s.pages[start].page.cap
  {
    assert SlabOk(s, start);
  }

  lemma LargeDisjoint(s: State, i: nat, j: nat)
    requires Valid(s) && i < |s.large| && j < |s.large| && i != j
    ensures Apart(s.large[i].base, s.large[i].size, s.large[j].base, s.large[j].size)
  {
  }

  /** A live block overlaps no segment header and no record of a large allocation. */
  lemma BlockClear(s: State, p: nat, n: nat, b: nat, i: nat)
    requires Valid(s) && IsBlock(s, p, n)
    ensures IsSegment(s.cells, b) ==> Apart(p, n, b, PAGE_SIZE)
    ensures i < |s.large| ==> Apart(p, n, s.large[i].base, LARGE_HEADER)
  {
    if start, k :| SlabBlock(s, start, k, p, n) {
      LiveInPage(s, start, k);
      SlabRange(s, start, k);
      assert SlabOk(s, start);
      if i < |s.large| { SlotLargeDisjoint(s, start, k, i); assert LargeOk(s, i); }
      if IsSegment(s.cells, b) { SegmentHeader(start, b); }
    } else {
      var j :| LargeBlock(s, j, p, n);
      assert LargeOk(s, j);
      if i < |s.large| && i != j { LargeDisjoint(s, i, j); assert LargeOk(s, i); }
    }
  }

  /** A data page is no segment's header. */
  lemma SegmentHeader(start: nat, b: nat)
    requires start % PAGE_SIZE == 0 && SegmentBase(start) < start && b % SEGMENT_SIZE == 0
    ensures Apart(start, PAGE_SIZE, b, PAGE_SIZE)
  {
    var i := PageInSegment(start);
    var base := SegmentBase(start);
    if b > base { SegmentsApart(base, b); }
  }

  /** Live blocks are pairwise disjoint, and each has one size and is 16-byte aligned. */
  lemma BlocksDisjoint(s: State, p: nat, n: nat, q: nat, m: nat)
    requires Valid(s) && IsBlock(s, p, n) && IsBlock(s, q, m)
    ensures p != q ==> Apart(p, n, q, m)
    ensures p == q ==> n == m
    ensures p % MIN_ALIGN == 0 && p != 0
  {
    if start, k :| SlabBlock(s, start, k, p, n) {
      LiveInPage(s, start, k);
      SlabRange(s, start, k);
      assert SlabOk(s, start);
      if start', k' :| SlabBlock(s, start', k', q, m) {
        LiveInPage(s, start', k');
        if start != start' || k != k' { SlotsDisjoint(s, start, k, start', k'); }
        assert SlabOk(s, start');
      } else {
        var j :| LargeBlock(s, j, q, m);
        SlotLargeDisjoint(s, start, k, j);
        assert LargeOk(s, j);
      }
    } else {
      var i :| LargeBlock(s, i, p, n);
      assert LargeOk(s, i);
      if start', k' :| SlabBlock(s, start', k', q, m) {
        LiveInPage(s, start', k');
        SlotLargeDisjoint(s, start', k', i);
        assert SlabOk(s, start');
      } else {
        var j :| LargeBlock(s, j, q, m);
        assert LargeOk(s, j);
        if i != j { LargeDisjoint(s, i, j); }
      }
    }
  }
}
