/** How the elementary changes of the heap's state act on its validity and on the client's blocks. */
module HeapSteps {
  import opened Basics
  import opened Bits
  import opened Registry
  import opened Geometry
  import opened SizeClass
  import opened PageProtocol
  import opened PageSolo
  import opened HeapState

  /** No block other than the one at `ptr` changes its contents. */
  ghost predicate Intact(s: State, s': State, ptr: nat) {
    forall q: nat, n: nat, a: nat | IsBlock(s, q, n) && q <= a < q + n && q != ptr :: s'.mem(a) == s.mem(a)
  }

  /** No block other than the one at `ptr` comes or goes. */
  ghost predicate SameBlocks(s: State, s': State, ptr: nat) {
    forall q: nat, n: nat | q != ptr :: IsBlock(s', q, n) <==> IsBlock(s, q, n)
  }

  ghost predicate NoBlock(s: State, ptr: nat) {
    forall n: nat :: !IsBlock(s, ptr, n)
  }

  /** A block of `n` bytes at `ptr` is all the client gains. */
  ghost predicate Gains(s: State, s': State, ptr: nat, n: nat) {
    NoBlock(s, ptr) && IsBlock(s', ptr, n) && SameBlocks(s, s', ptr) && Intact(s, s', ptr)
  }

  /** The block at `ptr` is all the client loses. */
  ghost predicate Loses(s: State, s': State, ptr: nat) {
    NoBlock(s', ptr) && SameBlocks(s, s', ptr) && Intact(s, s', ptr)
  }

  // ---- one slot of one page ----

  ghost predicate SameOutside(mem: Memory, mem': Memory, a: nat, n: nat) {
    forall x: nat | !(a <= x < a + n) :: mem'(x) == mem(x)
  }

  /** Slot `j` is in the same condition in both slabs. */
  ghost predicate SlotAlike(slab: Slab, slab': Slab, j: nat) {
    && slab'.size == slab.size
    && (slab.page.bump <= j <==> slab'.page.bump <= j)
    && (j in slab.page.live <==> j in slab'.page.live)
    && Fetch(slab.page.link, j) == Fetch(slab'.page.link, j)
  }

  lemma SlotMemFrame(mem: Memory, mem': Memory, start: nat, slab: Slab, slab': Slab, j: nat, a: nat, n: nat)
    requires SlotMem(mem, start, slab, j) && SlotAlike(slab, slab', j) && MIN_ALIGN <= slab.size
    requires SameOutside(mem, mem', a, n) && Apart(SlotAddr(start, slab.size, j), slab.size, a, n)
    ensures SlotMem(mem', start, slab', j)
  {
  }

  /** Page `start` becomes `page`, which differs at slot `k` only, and memory changes inside that slot only. */
  ghost predicate SlotChange(s: State, s': State, start: nat, page: Page, k: nat) {
    && start in s.pages
    && var slab, slab' := s.pages[start], s.pages[start].(page := page);
    && k < slab.page.cap
    && s' == s.(mem := s'.mem, cache := s'.cache, pages := s.pages[start := slab'])
    && SlabShape(slab')
    && (forall j: nat {:trigger SlotAlike(slab, slab', j)} | j != k :: SlotAlike(slab, slab', j))
    && SameOutside(s.mem, s'.mem, SlotAddr(start, slab.size, k), slab.size)
    && SlotMem(s'.mem, start, slab', k)
    && ListsOk(s')
  }

  lemma SlotChangeMem(s: State, s': State, start: nat, page: Page, k: nat, other: nat)
    requires Valid(s) && SlotChange(s, s', start, page, k) && other in s.pages
    ensures PageMem(s'.mem, other, s'.pages[other])
  {
    assert SlabOk(s, other) && SlabOk(s, start);
    var slab, slab' := s.pages[other], s'.pages[other];
    var addr, size := SlotAddr(start, s.pages[start].size, k), s.pages[start].size;
    forall j: nat | j < slab'.page.cap ensures SlotMem(s'.mem, other, slab', j) {
      assert SlotMem(s.mem, other, slab, j);
      if other != start || j != k {
        SlotsDisjoint(s, start, k, other, j);
        assert SlotAlike(slab, slab', j);
        SlotMemFrame(s.mem, s'.mem, other, slab, slab', j, addr, size);
      }
    }
  }

  lemma SlotChangeValid(s: State, s': State, start: nat, page: Page, k: nat)
    requires Valid(s) && SlotChange(s, s', start, page, k) && Quiet(page)
    ensures Valid(s')
  {
    forall other | other in s'.pages ensures SlabOk(s', other) {
      assert SlabOk(s, other);
      SlotChangeMem(s, s', start, page, k, other);
    }
    forall other | other in s'.pages ensures QuietAt(s'.pages, other) {
      assert other != start ==> QuietAt(s.pages, other);
    }
    SlotChangeSegments(s, s', start, page, k);
    forall i: nat | i < |s'.large| ensures LargeOk(s', i) { assert LargeOk(s, i); }
  }

  lemma SlotChangeSegments(s: State, s': State, start: nat, page: Page, k: nat)
    requires Valid(s) && SlotChange(s, s', start, page, k)
    ensures SegmentsOk(s')
  {
    SlabRange(s, start, k);
    assert SlabOk(s, start);
    forall b: nat, i: nat | IsSegment(s'.cells, b) && 0 < i < PAGES_PER_SEGMENT && PageStart(b, i) !in s'.pages
      ensures Zeros(s'.mem, PageStart(b, i), PAGE_SIZE)
    {
      PageMultiple(b, i);
      if start < PageStart(b, i) { PagesApart(start, PageStart(b, i)); } else { PagesApart(PageStart(b, i), start); }
    }
  }

  lemma SlotChangeBlocks(s: State, s': State, start: nat, page: Page, k: nat)
    requires Valid(s) && SlotChange(s, s', start, page, k)
    ensures var addr := SlotAddr(start, s.pages[start].size, k);
            && SameBlocks(s, s', addr)
            && (if k in s.pages[start].page.live then IsBlock(s, addr, s.pages[start].size) else NoBlock(s, addr))
  {
    var addr := SlotAddr(start, s.pages[start].size, k);
    forall q: nat, n: nat | q != addr ensures IsBlock(s', q, n) <==> IsBlock(s, q, n) {
      forall st: nat, j: nat ensures SlabBlock(s', st, j, q, n) <==> SlabBlock(s, st, j, q, n) {
        if st == start && j != k { assert SlotAlike(s.pages[start], s'.pages[start], j); }
      }
      forall i: nat ensures LargeBlock(s', i, q, n) <==> LargeBlock(s, i, q, n) {}
    }
    if k in s.pages[start].page.live {
      assert SlabBlock(s, start, k, addr, s.pages[start].size);
    } else {
      forall n: nat ensures !IsBlock(s, addr, n) { OnlyThisSlot(s, start, k, n); }
    }
  }

  /** The address of a slot is a block exactly when the slot is live. */
  lemma OnlyThisSlot(s: State, start: nat, k: nat, n: nat)
    requires Valid(s) && start in s.pages && k < s.pages[start].page.cap
    ensures IsBlock(s, SlotAddr(start, s.pages[start].size, k), n) <==>
      k in s.pages[start].page.live && n == s.pages[start].size
  {
    var addr := SlotAddr(start, s.pages[start].size, k);
    assert SlabOk(s, start);
    if k in s.pages[start].page.live && n == s.pages[start].size { assert SlabBlock(s, start, k, addr, n); }
    if IsBlock(s, addr, n) {
      if st, j :| SlabBlock(s, st, j, addr, n) {
        LiveInPage(s, st, j);
        assert SlabOk(s, st);
        if st != start || j != k { SlotsDisjoint(s, start, k, st, j); }
      } else {
        var i :| LargeBlock(s, i, addr, n);
        assert LargeOk(s, i);
        SlotLargeDisjoint(s, start, k, i);
      }
    }
  }

  lemma SlotChangeIntact(s: State, s': State, start: nat, page: Page, k: nat)
    requires Valid(s) && SlotChange(s, s', start, page, k)
    ensures Intact(s, s', SlotAddr(start, s.pages[start].size, k))
  {
    var addr, size := SlotAddr(start, s.pages[start].size, k), s.pages[start].size;
    forall q: nat, n: nat, a: nat | IsBlock(s, q, n) && q <= a < q + n && q != addr ensures s'.mem(a) == s.mem(a) {
      BlockSlotApart(s, q, n, start, k);
    }
  }

  /** A block is a given slot, or does not overlap it. */
  lemma BlockSlotApart(s: State, q: nat, n: nat, start: nat, k: nat)
    requires Valid(s) && IsBlock(s, q, n) && start in s.pages && k < s.pages[start].page.cap
    requires q != SlotAddr(start, s.pages[start].size, k)
    ensures Apart(q, n, SlotAddr(start, s.pages[start].size, k), s.pages[start].size)
  {
    if st, j :| SlabBlock(s, st, j, q, n) {
      LiveInPage(s, st, j);
      SlotsDisjoint(s, start, k, st, j);
    } else {
      var i :| LargeBlock(s, i, q, n);
      SlotLargeDisjoint(s, start, k, i);
      assert LargeOk(s, i);
    }
  }

  /** A slot is handed out. */
  lemma SlotGain(s: State, s': State, start: nat, page: Page, k: nat)
    requires Valid(s) && SlotChange(s, s', start, page, k) && Quiet(page)
    requires k !in s.pages[start].page.live && k in page.live
    ensures Valid(s') && Gains(s, s', SlotAddr(start, s.pages[start].size, k), s.pages[start].size)
  {
    SlotChangeValid(s, s', start, page, k);
    SlotChangeBlocks(s, s', start, page, k);
    SlotChangeIntact(s, s', start, page, k);
    OnlyThisSlot(s', start, k, s.pages[start].size);
  }

  /** A slot is taken back. */
  lemma SlotLoss(s: State, s': State, start: nat, page: Page, k: nat)
    requires Valid(s) && SlotChange(s, s', start, page, k) && Quiet(page) && k !in page.live
    ensures Valid(s') && Loses(s, s', SlotAddr(start, s.pages[start].size, k))
  {
    SlotChangeValid(s, s', start, page, k);
    SlotChangeBlocks(s, s', start, page, k);
    SlotChangeIntact(s, s', start, page, k);
    assert SlabOk(s, start);
    forall n: nat ensures !IsBlock(s', SlotAddr(start, s.pages[start].size, k), n) { OnlyThisSlot(s', start, k, n); }
  }

  // ---- new pages and segments ----

  /** The client's view stays as it is. */
  ghost predicate Same(s: State, s': State) {
    && (forall q: nat, n: nat :: IsBlock(s', q, n) <==> IsBlock(s, q, n))
    && (forall q: nat, n: nat, a: nat | IsBlock(s, q, n) && q <= a < q + n :: s'.mem(a) == s.mem(a))
  }

  lemma SameGains(s: State, s1: State, s2: State, ptr: nat, n: nat)
    requires Same(s, s1) && Gains(s1, s2, ptr, n)
    ensures Gains(s, s2, ptr, n)
  {
  }

  lemma SameSame(s: State, s1: State, s2: State)
    requires Same(s, s1) && Same(s1, s2)
    ensures Same(s, s2)
  {
  }

  /** A slab none of whose slots was ever handed out. */
  function BlankSlab(bin: nat): Slab {
    var size := SlotSize(ClassSize(bin));
    SlotSizeBounds(ClassSize(bin));
    Slab(Blank(Capacity(size)), bin, size)
  }

  lemma BlankSlabOk(bin: nat)
    requires bin < BIN_COUNT && ClassSize(bin) <= PAGE_SIZE / 2
    ensures var slab := BlankSlab(bin);
            && SlabShape(slab) && SlabBin(slab) && Quiet(slab.page)
            && slab.page.bump == 0 && slab.page.live == {} && slab.page.cap > 0
  {
    SlotSizeBounds(ClassSize(bin));
    CapacityFits(SlotSize(ClassSize(bin)));
    BlankQuiet(Capacity(SlotSize(ClassSize(bin))));
  }

  /** An unused page of a registered segment was never written. */
  lemma UnusedZero(s: State, start: nat)
    requires SegmentsOk(s) && InSegment(s.cells, start) && start !in s.pages
    ensures Zeros(s.mem, start, PAGE_SIZE)
  {
    var i := PageInSegment(start);
  }

  lemma BlankMem(mem: Memory, start: nat, slab: Slab)
    requires Zeros(mem, start, PAGE_SIZE) && SlabShape(slab) && slab.page.bump == 0
    ensures PageMem(mem, start, slab)
  {
    forall k: nat | k < slab.page.cap ensures SlotMem(mem, start, slab, k) { SlotInPage(start, slab.size, k); }
  }

  /** A page of a registered segment is put to use. */
  lemma AddPage(s: State, s': State, start: nat, slab: Slab)
    requires Valid(s) && InSegment(s.cells, start) && start !in s.pages
    requires SlabShape(slab) && SlabBin(slab) && Quiet(slab.page) && slab.page.bump == 0 && slab.page.live == {}
    requires s' == s.(pages := s.pages[start := slab], bins := s'.bins) && ListsOk(s')
    ensures Valid(s') && Same(s, s')
  {
    UnusedZero(s, start);
    BlankMem(s.mem, start, slab);
    forall other | other in s'.pages ensures SlabOk(s', other) { if other != start { assert SlabOk(s, other); } }
    forall other | other in s'.pages ensures QuietAt(s'.pages, other) {
      if other != start { assert QuietAt(s.pages, other); }
    }
    forall i: nat | i < |s'.large| ensures LargeOk(s', i) { assert LargeOk(s, i); }
    AddPageSame(s, s', start, slab);
  }

  lemma AddPageSame(s: State, s': State, start: nat, slab: Slab)
    requires start !in s.pages && slab.page.live == {} && s' == s.(pages := s.pages[start := slab], bins := s'.bins)
    ensures Same(s, s')
  {
    forall q: nat, n: nat ensures IsBlock(s', q, n) <==> IsBlock(s, q, n) {
      forall st: nat, j: nat ensures SlabBlock(s', st, j, q, n) <==> SlabBlock(s, st, j, q, n) {}
      forall i: nat ensures LargeBlock(s', i, q, n) <==> LargeBlock(s, i, q, n) {}
    }
  }

  /** A fresh segment is registered. */
  lemma AddSegment(s: State, s': State, base: nat)
    requires Valid(s) && base % SEGMENT_SIZE == 0 && base != 0 && base + SEGMENT_SIZE <= WORD
    requires 0 in s.cells && base !in s.cells
    requires forall i | 0 <= i < |s.large| :: Apart(s.large[i].base, s.large[i].size, base, SEGMENT_SIZE)
    requires SameOutside(s.mem, s'.mem, base, SEGMENT_SIZE) && Zeros(s'.mem, base, SEGMENT_SIZE)
    requires s' == s.(mem := s'.mem, cells := Insert(s.cells, base), segments := s'.segments)
    requires forall a, i | a in s'.segments && 0 <= i < |s'.segments[a]| :: IsSegment(s'.cells, s'.segments[a][i])
    ensures Valid(s') && Same(s, s')
  {
    SegmentAdded(s.cells, base);
    forall other | other in s'.pages ensures SlabOk(s', other) { AddSegmentSlab(s, s', base, other); }
    forall i: nat | i < |s'.large| ensures LargeOk(s', i) { assert LargeOk(s, i); }
    forall other | other in s'.pages ensures QuietAt(s'.pages, other) { assert QuietAt(s.pages, other); }
    AddSegmentZeros(s, s', base);
    AddSegmentSame(s, s', base);
  }

  lemma SegmentAdded(cells: seq<nat>, base: nat)
    requires Table(cells) && base != 0 && 0 in cells
    ensures Table(Insert(cells, base))
    ensures forall b: nat :: IsSegment(Insert(cells, base), b) <==> IsSegment(cells, b) || b == base
  {
    InsertIff(cells, base, base);
    forall b: nat ensures IsSegment(Insert(cells, base), b) <==> IsSegment(cells, b) || b == base {
      if b != 0 { InsertIff(cells, base, b); }
    }
  }

  /** Distinct segments do not overlap, so a page of one is outside the other. */
  lemma PageOutside(start: nat, base: nat)
    requires base % SEGMENT_SIZE == 0 && start % PAGE_SIZE == 0 && SegmentBase(start) != base
    ensures Apart(start, PAGE_SIZE, base, SEGMENT_SIZE)
  {
    var i := PageInSegment(start);
    var b := SegmentBase(start);
    if b < base { SegmentsApart(b, base); } else { SegmentsApart(base, b); }
  }

  lemma AddSegmentSlab(s: State, s': State, base: nat, start: nat)
    requires Valid(s) && base % SEGMENT_SIZE == 0 && !IsSegment(s.cells, base) && start in s.pages
    requires SameOutside(s.mem, s'.mem, base, SEGMENT_SIZE) && s'.pages == s.pages
    requires forall b: nat :: IsSegment(s.cells, b) ==> IsSegment(s'.cells, b)
    ensures SlabOk(s', start)
  {
    assert SlabOk(s, start);
    PageOutside(start, base);
    var slab := s.pages[start];
    forall k: nat | k < slab.page.cap ensures SlotMem(s'.mem, start, slab, k) {
      assert SlotMem(s.mem, start, slab, k);
      SlotInPage(start, slab.size, k);
      SlotMemFrame(s.mem, s'.mem, start, slab, slab, k, base, SEGMENT_SIZE);
    }
  }

  lemma AddSegmentZeros(s: State, s': State, base: nat)
    requires SegmentsOk(s) && base % SEGMENT_SIZE == 0 && s'.pages == s.pages
    requires forall b: nat :: IsSegment(s'.cells, b) <==> IsSegment(s.cells, b) || b == base
    requires SameOutside(s.mem, s'.mem, base, SEGMENT_SIZE) && Zeros(s'.mem, base, SEGMENT_SIZE)
    ensures forall b: nat, i: nat |
      IsSegment(s'.cells, b) && 0 < i < PAGES_PER_SEGMENT && PageStart(b, i) !in s'.pages ::
      Zeros(s'.mem, PageStart(b, i), PAGE_SIZE)
  {
    forall b: nat, i: nat | IsSegment(s'.cells, b) && 0 < i < PAGES_PER_SEGMENT && PageStart(b, i) !in s'.pages
      ensures Zeros(s'.mem, PageStart(b, i), PAGE_SIZE)
    {
      PageBack(b, i, 0);
      PageMultiple(b, i);
      if b == base {
        var j := PageInSegment(PageStart(b, i));
      } else {
        PageOutside(PageStart(b, i), base);
        assert Zeros(s.mem, PageStart(b, i), PAGE_SIZE);
      }
    }
  }

  lemma AddSegmentSame(s: State, s': State, base: nat)
    requires Valid(s) && base % SEGMENT_SIZE == 0 && !IsSegment(s.cells, base)
    requires SameOutside(s.mem, s'.mem, base, SEGMENT_SIZE)
    requires forall i | 0 <= i < |s.large| :: Apart(s.large[i].base, s.large[i].size, base, SEGMENT_SIZE)
    requires s'.pages == s.pages && s'.large == s.large
    ensures Same(s, s')
  {
    BlocksFrom(s, s');
    forall q: nat, n: nat, a: nat | IsBlock(s, q, n) && q <= a < q + n ensures s'.mem(a) == s.mem(a) {
      if st, j :| SlabBlock(s, st, j, q, n) {
        assert SlabOk(s, st);
        LiveInPage(s, st, j);
        SlabRange(s, st, j);
        PageOutside(st, base);
      } else {
        var i :| LargeBlock(s, i, q, n);
        assert LargeOk(s, i);
      }
    }
  }

  /** The blocks are read off the pages and the large list alone. */
  lemma BlocksFrom(s: State, s': State)
    requires s'.pages == s.pages && s'.large == s.large
    ensures forall q: nat, n: nat :: IsBlock(s', q, n) <==> IsBlock(s, q, n)
  {
    forall q: nat, n: nat ensures IsBlock(s', q, n) <==> IsBlock(s, q, n) {
      forall st: nat, j: nat ensures SlabBlock(s', st, j, q, n) <==> SlabBlock(s, st, j, q, n) {}
      forall i: nat ensures LargeBlock(s', i, q, n) <==> LargeBlock(s, i, q, n) {}
    }
  }

  // ---- large allocations ----

  /** A mapping that overlaps nothing in use. */
  ghost predicate Unmapped(s: State, base: nat, n: nat) {
    && (forall b: nat | IsSegment(s.cells, b) :: Apart(base, n, b, SEGMENT_SIZE))
    && (forall i | 0 <= i < |s.large| :: Apart(base, n, s.large[i].base, s.large[i].size))
  }

  lemma UnmappedPage(s: State, base: nat, n: nat, start: nat, k: nat)
    requires Valid(s) && Unmapped(s, base, n) && start in s.pages && k < s.pages[start].page.cap
    ensures Apart(SlotAddr(start, s.pages[start].size, k), s.pages[start].size, base, n)
  {
    assert SlabOk(s, start);
    SlabRange(s, start, k);
  }

  lemma AddLargeValid(s: State, s': State, la: Large)
    requires Valid(s) && Unmapped(s, la.base, la.size) && 0 < la.base && la.base + la.size <= WORD
    requires la.base + LARGE_HEADER <= la.ptr < la.base + la.size && la.ptr + la.userSize <= la.base + la.size
    requires la.ptr % MIN_ALIGN == 0 && SameOutside(s.mem, s'.mem, la.base, la.size)
    requires s' == s.(mem := s'.mem, large := [la] + s.large)
    ensures Valid(s')
  {
    forall i: nat | i < |s'.large| ensures LargeOk(s', i) { if i > 0 { assert LargeOk(s, i - 1); } }
    forall other | other in s'.pages ensures SlabOk(s', other) {
      assert SlabOk(s, other);
      var slab := s.pages[other];
      forall k: nat | k < slab.page.cap ensures SlotMem(s'.mem, other, slab, k) {
        assert SlotMem(s.mem, other, slab, k);
        UnmappedPage(s, la.base, la.size, other, k);
        SlotMemFrame(s.mem, s'.mem, other, slab, slab, k, la.base, la.size);
      }
    }
    forall other | other in s'.pages ensures QuietAt(s'.pages, other) { assert QuietAt(s.pages, other); }
    OutsideZeros(s, s', la.base, la.size);
  }

  /** Memory changes outside all segments leave their unused pages zero. */
  lemma OutsideZeros(s: State, s': State, a: nat, n: nat)
    requires SegmentsOk(s) && s'.pages == s.pages && s'.cells == s.cells && SameOutside(s.mem, s'.mem, a, n)
    requires forall b: nat | IsSegment(s.cells, b) :: Apart(a, n, b, SEGMENT_SIZE)
    ensures forall b: nat, i: nat |
      IsSegment(s'.cells, b) && 0 < i < PAGES_PER_SEGMENT && PageStart(b, i) !in s'.pages ::
      Zeros(s'.mem, PageStart(b, i), PAGE_SIZE)
  {
    forall b: nat, i: nat | IsSegment(s'.cells, b) && 0 < i < PAGES_PER_SEGMENT && PageStart(b, i) !in s'.pages
      ensures Zeros(s'.mem, PageStart(b, i), PAGE_SIZE)
    {
      assert Zeros(s.mem, PageStart(b, i), PAGE_SIZE);
    }
  }

  /** A large allocation. */
  lemma AddLarge(s: State, s': State, la: Large)
    requires Valid(s) && Unmapped(s, la.base, la.size) && 0 < la.base && la.base + la.size <= WORD
    requires la.base + LARGE_HEADER <= la.ptr < la.base + la.size && la.ptr + la.userSize <= la.base + la.size
    requires la.ptr % MIN_ALIGN == 0 && SameOutside(s.mem, s'.mem, la.base, la.size)
    requires s' == s.(mem := s'.mem, large := [la] + s.large)
    ensures Valid(s') && Gains(s, s', la.ptr, la.userSize)
  {
    AddLargeValid(s, s', la);
    assert LargeBlock(s', 0, la.ptr, la.userSize);
    forall q: nat, n: nat | IsBlock(s, q, n) ensures Apart(q, n, la.base, la.size) && q != la.ptr {
      if st, j :| SlabBlock(s, st, j, q, n) {
        LiveInPage(s, st, j);
        UnmappedPage(s, la.base, la.size, st, j);
        assert SlabOk(s, st);
      } else {
        var i :| LargeBlock(s, i, q, n);
        assert LargeOk(s, i);
      }
    }
    forall q: nat, n: nat | q != la.ptr ensures IsBlock(s', q, n) <==> IsBlock(s, q, n) {
      forall st: nat, j: nat ensures SlabBlock(s', st, j, q, n) <==> SlabBlock(s, st, j, q, n) {}
      forall i: nat | LargeBlock(s, i, q, n) ensures IsBlock(s', q, n) { assert LargeBlock(s', i + 1, q, n); }
      forall i: nat | LargeBlock(s', i, q, n) ensures IsBlock(s, q, n) { assert LargeBlock(s, i - 1, q, n); }
    }
  }

  /** A large allocation is released. */
  lemma DropLarge(s: State, s': State, i: nat)
    requires Valid(s) && i < |s.large| && s' == s.(large := s.large[..i] + s.large[i + 1..])
    ensures Valid(s') && Loses(s, s', s.large[i].ptr)
  {
    forall j: nat | j < |s'.large| ensures LargeOk(s', j) { assert LargeOk(s, if j < i then j else j + 1); }
    forall other | other in s'.pages ensures SlabOk(s', other) { assert SlabOk(s, other); }
    forall other | other in s'.pages ensures QuietAt(s'.pages, other) { assert QuietAt(s.pages, other); }
    DropLargeBlocks(s, s', i);
  }

  lemma DropLargeBlocks(s: State, s': State, i: nat)
    requires Valid(s) && i < |s.large| && s' == s.(large := s.large[..i] + s.large[i + 1..])
    ensures Loses(s, s', s.large[i].ptr)
  {
    var ptr := s.large[i].ptr;
    assert LargeOk(s, i) && LargeBlock(s, i, ptr, s.large[i].userSize);
    forall q: nat, n: nat ensures IsBlock(s', q, n) <==> IsBlock(s, q, n) && q != ptr {
      forall st: nat, j: nat ensures SlabBlock(s', st, j, q, n) <==> SlabBlock(s, st, j, q, n) {}
      forall st: nat, j: nat | SlabBlock(s, st, j, q, n) ensures q != ptr {
        LiveInPage(s, st, j);
        SlotLargeDisjoint(s, st, j, i);
        assert SlabOk(s, st);
      }
      forall j: nat | LargeBlock(s, j, q, n) && q != ptr ensures IsBlock(s', q, n) {
        assert LargeBlock(s', if j < i then j else j - 1, q, n);
      }
      forall j: nat | LargeBlock(s', j, q, n) ensures IsBlock(s, q, n) && q != ptr {
        var j' := if j < i then j else j + 1;
        assert LargeBlock(s, j', q, n) && LargeOk(s, j');
        LargeDisjoint(s, i, j');
      }
    }
  }

  // ---- writes inside one block ----

  /** Memory changes inside one live block only. */
  lemma Overwrite(s: State, s': State, ptr: nat, n: nat)
    requires Valid(s) && IsBlock(s, ptr, n) && SameOutside(s.mem, s'.mem, ptr, n) && s' == s.(mem := s'.mem)
    ensures Valid(s') && Intact(s, s', ptr)
    ensures forall q: nat, m: nat :: IsBlock(s', q, m) <==> IsBlock(s, q, m)
  {
    BlocksFrom(s, s');
    OverwriteIntact(s, s', ptr, n);
    OverwriteSlabs(s, s', ptr, n);
    forall i: nat | i < |s'.large| ensures LargeOk(s', i) { assert LargeOk(s, i); }
    forall other | other in s'.pages ensures QuietAt(s'.pages, other) { assert QuietAt(s.pages, other); }
  }

  lemma OverwriteIntact(s: State, s': State, ptr: nat, n: nat)
    requires Valid(s) && IsBlock(s, ptr, n) && SameOutside(s.mem, s'.mem, ptr, n)
    ensures Intact(s, s', ptr)
  {
    forall q: nat, m: nat, a: nat | IsBlock(s, q, m) && q <= a < q + m && q != ptr ensures s'.mem(a) == s.mem(a) {
      BlocksDisjoint(s, ptr, n, q, m);
    }
  }

  lemma OverwriteSlabs(s: State, s': State, ptr: nat, n: nat)
    requires Valid(s) && IsBlock(s, ptr, n) && SameOutside(s.mem, s'.mem, ptr, n) && s' == s.(mem := s'.mem)
    ensures SegmentsOk(s') && forall other | other in s'.pages :: SlabOk(s', other)
  {
    if st, k :| SlabBlock(s, st, k, ptr, n) {
      LiveInPage(s, st, k);
      OverwriteSlab(s, s', st, k);
    } else {
      var i :| LargeBlock(s, i, ptr, n);
      OverwriteLarge(s, s', i);
    }
  }

  lemma OverwriteSlab(s: State, s': State, start: nat, k: nat)
    requires Valid(s) && start in s.pages && k in s.pages[start].page.live && k < s.pages[start].page.cap
    requires SameOutside(s.mem, s'.mem, SlotAddr(start, s.pages[start].size, k), s.pages[start].size)
    requires s' == s.(mem := s'.mem)
    ensures SegmentsOk(s') && forall other | other in s'.pages :: SlabOk(s', other)
  {
    assert SlabOk(s, start);
    assert s'.pages == s.pages[start := s.pages[start].(page := s.pages[start].page)];
    assert SlotChange(s, s', start, s.pages[start].page, k);
    SlotChangeSegments(s, s', start, s.pages[start].page, k);
    forall other | other in s'.pages ensures SlabOk(s', other) {
      assert SlabOk(s, other);
      SlotChangeMem(s, s', start, s.pages[start].page, k, other);
    }
  }

  lemma OverwriteLarge(s: State, s': State, i: nat)
    requires Valid(s) && i < |s.large| && SameOutside(s.mem, s'.mem, s.large[i].ptr, s.large[i].userSize)
    requires s' == s.(mem := s'.mem)
    ensures SegmentsOk(s') && forall other | other in s'.pages :: SlabOk(s', other)
  {
    assert LargeOk(s, i);
    var la := s.large[i];
    assert SameOutside(s.mem, s'.mem, la.base, la.size);
    forall other | other in s'.pages ensures SlabOk(s', other) {
      assert SlabOk(s, other);
      var slab := s.pages[other];
      forall k: nat | k < slab.page.cap ensures SlotMem(s'.mem, other, slab, k) {
        assert SlotMem(s.mem, other, slab, k);
        SlotLargeDisjoint(s, other, k, i);
        SlotMemFrame(s.mem, s'.mem, other, slab, slab, k, la.base, la.size);
      }
    }
    OutsideZeros(s, s', la.base, la.size);
  }

  /** The client's size of a large block changes within its mapping. */
  lemma Resize(s: State, s': State, i: nat, n: nat)
    requires Valid(s) && i < |s.large| && s.large[i].ptr + n <= s.large[i].base + s.large[i].size
    requires s' == s.(large := s.large[i := s.large[i].(userSize := n)])
    ensures Valid(s') && IsBlock(s', s.large[i].ptr, n) && SameBlocks(s, s', s.large[i].ptr)
  {
    forall j: nat | j < |s'.large| ensures LargeOk(s', j) { assert LargeOk(s, j); }
    forall other | other in s'.pages ensures SlabOk(s', other) { assert SlabOk(s, other); }
    forall other | other in s'.pages ensures QuietAt(s'.pages, other) { assert QuietAt(s.pages, other); }
    assert LargeBlock(s', i, s.large[i].ptr, n);
    forall q: nat, m: nat | q != s.large[i].ptr ensures IsBlock(s', q, m) <==> IsBlock(s, q, m) {
      forall st: nat, j: nat ensures SlabBlock(s', st, j, q, m) <==> SlabBlock(s, st, j, q, m) {}
      forall j: nat ensures LargeBlock(s', j, q, m) <==> LargeBlock(s, j, q, m) {}
    }
  }
}
