/** What the paths of the allocator, each as one change of the heap's state, do for the client. */
module HeapPaths {
  import opened Basics
  import opened Bits
  import opened Registry
  import opened Geometry
  import opened SizeClass
  import opened PageProtocol
  import opened PageSolo
  import opened PageForms
  import PageObject
  import opened HeapState
  import opened HeapSteps

  /** os_mmap_aligned: from size and alignment to an address, 0 when it fails. */
  type Os = (nat, nat) -> nat

  /** The system only hands out memory that is not in use, aligned as asked. */
  ghost predicate Honest(s: State, os: Os) {
    forall n: nat, a: nat | a > 0 && os(n, a) != 0 ::
      os(n, a) % a == 0 && os(n, a) + n <= WORD && Unmapped(s, os(n, a), n)
  }

  /** ptr_to_segment; 0 stands for NULL. */
  function PtrToSegment(cells: seq<nat>, ptr: nat): nat
    requires |cells| == REGISTRY_SIZE
  {
    if Lookup(cells, SegmentBase(ptr)) then SegmentBase(ptr) else 0
  }

  /** ptr_to_page: the start of the page a pointer into a segment lies in. */
  function PtrToPage(seg: nat, ptr: nat): nat
    requires seg <= ptr
  {
    PageStart(seg, PageIndex(seg, ptr))
  }

  /** Any slot address leads back to the page that produced it. */
  lemma SlotToPage(s: State, start: nat, k: nat)
    requires Valid(s) && start in s.pages && k < s.pages[start].page.cap
    ensures var ptr, size := SlotAddr(start, s.pages[start].size, k), s.pages[start].size;
            && PtrToSegment(s.cells, ptr) == SegmentBase(start) != 0
            && SegmentBase(start) <= ptr && PtrToPage(SegmentBase(start), ptr) == start
            && start <= ptr && size > 0 && (ptr - start) / size == k
  {
    assert SlabOk(s, start);
    SlabRange(s, start, k);
    var base, size := SegmentBase(start), s.pages[start].size;
    var i := PageInSegment(start);
    AddressRoundTrip(base, i, size, k, 0);
    LookupIff(s.cells, base);
  }

  /** The pointer of a large allocation leads to no segment. */
  lemma LargeToNone(s: State, i: nat)
    requires Valid(s) && i < |s.large|
    ensures PtrToSegment(s.cells, s.large[i].ptr) == 0
  {
    assert LargeOk(s, i);
    var b := SegmentBase(s.large[i].ptr);
    SegmentBaseIs(s.large[i].ptr);
    assert IsSegment(s.cells, b) ==> Apart(s.large[i].base, s.large[i].size, b, SEGMENT_SIZE);
    if b != 0 { LookupIff(s.cells, b); }
  }

  // ---- slab allocation ----

  /** Between calls a page in use is quiet, and no thread that used it has ended. */
  lemma PageQuiet(s: State, start: nat)
    requires Valid(s) && start in s.pages
    ensures Quiet(s.pages[start].page) && s.pages[start].page.exited == {} && SlabBin(s.pages[start])
  {
    assert SlabOk(s, start) && QuietAt(s.pages, start);
  }

  function WithPage(s: State, start: nat, page: Page): State
    requires start in s.pages
  {
    s.(pages := s.pages[start := s.pages[start].(page := page)])
  }

  /** `q` is `p` with slot `k` handed out, from a free list or as the next virgin one. */
  ghost predicate HandedOut(p: Page, q: Page, k: nat) {
    && q.cap == p.cap && q.link == p.link && q.exited == p.exited && q.owner != Some(NO_TLD)
    && k !in p.live && q.live == p.live + {k} && k < q.bump <= q.cap
    && (q.bump == p.bump || (k == p.bump && q.bump == k + 1))
  }

  lemma HandedShape(slab: Slab, q: Page, k: nat)
    requires SlabShape(slab) && HandedOut(slab.page, q, k)
    ensures SlabShape(slab.(page := q))
    ensures forall j: nat {:trigger SlotAlike(slab, slab.(page := q), j)} | j != k ::
      SlotAlike(slab, slab.(page := q), j)
  {
  }

  lemma SlotHanded(s: State, s': State, start: nat, q: Page, k: nat)
    requires Valid(s) && start in s.pages && HandedOut(s.pages[start].page, q, k) && Quiet(q)
    requires s' == WithPage(s, start, q).(cache := s'.cache) && ListsOk(s')
    ensures var addr, size := SlotAddr(start, s.pages[start].size, k), s.pages[start].size;
            && Valid(s') && Gains(s, s', addr, size) && addr != 0
            && (s.pages[start].page.bump <= k ==> Zeros(s.mem, addr, size))
  {
    assert SlabOk(s, start);
    SlabRange(s, start, k);
    HandedShape(s.pages[start], q, k);
    assert SlotMem(s.mem, start, s.pages[start], k);
    assert SlotChange(s, s', start, q, k);
    SlotGain(s, s', start, q, k);
  }

  /** The bin lists and caches stay in order when a page changes and nobody is dropped from its cachers. */
  lemma ListsKept(s: State, s': State, start: nat, q: Page)
    requires ListsOk(s) && start in s.pages && s.pages[start].page.cached <= q.cached
    requires s' == WithPage(s, start, q)
    ensures ListsOk(s')
  {
  }

  /** What the fast path leaves of a page: one more slot handed out, or the page dropped. */
  ghost predicate FastResult(p: Page, t: Tid, r: Outcome) {
    && r.page.cap == p.cap && r.page.link == p.link && r.page.exited == p.exited && r.page.owner == p.owner
    && (r.Slot? ==>
          && r.page.cached == p.cached && r.slot !in p.live && r.page.live == p.live + {r.slot}
          && r.slot < r.page.bump <= r.page.cap
          && if r.virgin then r.slot == p.bump && r.page.bump == p.bump + 1 else r.page.bump == p.bump)
    && (r.Full? ==> r.page.cached == p.cached - {t} && r.page.live == p.live && r.page.bump == p.bump)
    && (r.Full? <==> AllLive(p))
    && DrawnBy(p, t, r)
  }

  /** The first slot an allocation by the owner finds: on the local list, in the virgin region, on the remote stack. */
  function FirstFree(p: Page, remote: seq<nat>): nat {
    if p.localHead.At? then p.localHead.slot
    else if p.bump < p.cap then p.bump
    else if remote != [] then remote[0] else 0
  }

  /** The page has changed as the closed form says, and its first free slot was handed out if it has one. */
  ghost predicate DrawnBy(p: Page, t: Tid, r: Outcome) {
    exists remote :: DrawnAs(p, t, remote, r)
  }

  ghost predicate DrawnAs(p: Page, t: Tid, remote: seq<nat>, r: Outcome) {
    && Chain(p.link, p.head.ptr, remote) && r.page == Drawn(p, t, remote)
    && (r.Slot? ==> r.slot == FirstFree(p, remote))
    && (r.Full? <==> p.localHead.Null? && p.bump >= p.cap && remote == [])
  }

  /** Every slot is handed out. */
  ghost predicate AllLive(p: Page) { forall k: nat | k < p.cap :: k in p.live }

  lemma RunsAsDrawn(p: Page, t: Tid, r: Outcome)
    requires Quiet(p) && t in p.cached && r == TryCached(p, t)
    ensures DrawnBy(p, t, r)
  {
    var local, remote := PageObject.FreeLists(p);
    PageObject.TryCachedIs(p, t, remote);
    assert DrawnAs(p, t, remote, r);
  }

  method RunFast(p: Page, t: Tid) returns (r: Outcome)
    requires Quiet(p) && t in p.cached
    ensures Quiet(r.page) && FastResult(p, t, r)
  {
    r := TryCached(p, t);
    QuietFacts(r.page);
    PageObject.FullExactly(p, t);
    RunsAsDrawn(p, t, r);
  }

  /** What the slow path leaves of an unowned page. */
  ghost predicate SlowResult(p: Page, q: Page, t: Tid, claim: bool) {
    && q.cap == p.cap && q.link == p.link && q.exited == p.exited
    && p.bump !in p.live && q.live == p.live + {p.bump} && q.bump == p.bump + 1 <= q.cap
    && (if claim then q.owner == Some(t) && q.cached == p.cached + {t} else q.owner == None && q.cached == p.cached)
    && q == Claimed(p, t, claim)
  }

  method RunSlow(p: Page, t: Tid, claim: bool) returns (q: Page)
    requires Quiet(p) && Unowned(p) && t !in p.exited
    ensures Quiet(q) && SlowResult(p, q, t, claim)
  {
    q := FromUnowned(p, t, claim);
    QuietFacts(q);
    PageObject.FromUnownedIs(p, t, claim);
  }

  /** The fast path finds a slot in the cached page. */
  lemma CachedSlot(s: State, t: Tid, start: nat, r: Outcome)
    requires Valid(s) && start in s.pages && r.Slot? && FastResult(s.pages[start].page, t, r) && Quiet(r.page)
    ensures var s', size := WithPage(s, start, r.page), s.pages[start].size;
            && Valid(s') && Gains(s, s', SlotAddr(start, size, r.slot), size) && SlotAddr(start, size, r.slot) != 0
            && (r.virgin ==> Zeros(s.mem, SlotAddr(start, size, r.slot), size))
  {
    assert SlabOk(s, start);
    ListsKept(s, WithPage(s, start, r.page), start, r.page);
    SlotHanded(s, WithPage(s, start, r.page), start, r.page, r.slot);
  }

  /** The fast path drops a full page. */
  lemma CachedFull(s: State, s': State, t: Tid, b: nat, r: Outcome)
    requires Valid(s) && (t, b) in s.cache && s.cache[(t, b)] in s.pages
    requires r.Full? && FastResult(s.pages[s.cache[(t, b)]].page, t, r) && Quiet(r.page)
    requires s' == WithPage(s, s.cache[(t, b)], r.page).(cache := s.cache - {(t, b)})
    ensures Valid(s') && Same(s, s')
  {
    var start := s.cache[(t, b)];
    assert SlabOk(s, start);
    CapacityFits(s.pages[start].size);
    assert SlotMem(s.mem, start, s.pages[start], 0);
    assert SlotChange(s, s', start, r.page, 0);
    SlotChangeValid(s, s', start, r.page, 0);
    SameLive(s, s', start, r.page);
  }

  /** A page whose live slots stay the same leaves the client's view alone. */
  lemma SameLive(s: State, s': State, start: nat, page: Page)
    requires start in s.pages && page.live == s.pages[start].page.live
    requires s' == WithPage(s, start, page).(cache := s'.cache)
    ensures Same(s, s')
  {
    forall q: nat, n: nat ensures IsBlock(s', q, n) <==> IsBlock(s, q, n) {
      forall st: nat, j: nat ensures SlabBlock(s', st, j, q, n) <==> SlabBlock(s, st, j, q, n) {}
      forall i: nat ensures LargeBlock(s', i, q, n) <==> LargeBlock(s, i, q, n) {}
    }
  }

  /** The slow path bumps an unowned page, and the caller may claim it. */
  lemma UnownedSlot(s: State, s': State, t: Tid, start: nat, q: Page, claim: bool)
    requires Valid(s) && start in s.pages && SlowResult(s.pages[start].page, q, t, claim) && Quiet(q)
    requires claim ==> t != NO_TLD
    requires s' == WithPage(s, start, q).(cache := if claim then s.cache[(t, s.pages[start].bin) := start] else s.cache)
    ensures var addr, size := SlotAddr(start, s.pages[start].size, s.pages[start].page.bump), s.pages[start].size;
            Valid(s') && Gains(s, s', addr, size) && addr != 0 && Zeros(s.mem, addr, size)
  {
    assert SlabOk(s, start);
    ListsKept(s, WithPage(s, start, q), start, q);
    SlotHanded(s, s', start, q, s.pages[start].page.bump);
  }

  predicate Unowned(p: Page) {
    p.owner == None && p.bump < p.cap
  }

  // ---- new pages and segments ----

  /** The state after page `i` of segment `seg` is put to use for a bin. */
  function WithNewPage(s: State, arena: nat, bin: nat, seg: nat, i: nat): State {
    var start := PageStart(seg, i);
    s.(pages := s.pages[start := BlankSlab(bin)],
       bins := s.bins[(arena, bin) := [start] + if (arena, bin) in s.bins then s.bins[(arena, bin)] else []])
  }

  lemma InstallOk(s: State, arena: nat, bin: nat, seg: nat, i: nat)
    requires Valid(s) && IsSegment(s.cells, seg) && 0 < i < PAGES_PER_SEGMENT && PageStart(seg, i) !in s.pages
    requires bin < BIN_COUNT && ClassSize(bin) <= PAGE_SIZE / 2
    ensures var s' := WithNewPage(s, arena, bin, seg, i);
            Valid(s') && Same(s, s') && Unowned(s'.pages[PageStart(seg, i)].page)
  {
    var start := PageStart(seg, i);
    DataPage(s, seg, i);
    BlankSlabOk(bin);
    var s' := WithNewPage(s, arena, bin, seg, i);
    ListsGrow(s, s', arena, bin, start);
    AddPage(s, s', start, BlankSlab(bin));
  }

  lemma DataPage(s: State, seg: nat, i: nat)
    requires SegmentsOk(s) && IsSegment(s.cells, seg) && 0 < i < PAGES_PER_SEGMENT
    ensures InSegment(s.cells, PageStart(seg, i))
  {
    PageBack(seg, i, 0);
    PageMultiple(seg, i);
  }

  lemma ListsGrow(s: State, s': State, arena: nat, bin: nat, start: nat)
    requires ListsOk(s) && start !in s.pages && BlankSlab(bin).bin == bin
    requires s'.pages == s.pages[start := BlankSlab(bin)] && s'.cache == s.cache
    requires s'.bins ==
      s.bins[(arena, bin) := [start] + if (arena, bin) in s.bins then s.bins[(arena, bin)] else []]
    ensures ListsOk(s')
  {
  }

  /** The state after a segment is mapped and given to an arena. */
  function WithSegment(s: State, arena: nat, seg: nat): State
    requires |s.cells| == REGISTRY_SIZE
  {
    s.(mem := Zeroed(s.mem, seg, SEGMENT_SIZE), cells := Insert(s.cells, seg),
       segments := s.segments[arena := [seg] + if arena in s.segments then s.segments[arena] else []])
  }

  lemma NewSegmentOk(s: State, arena: nat, os: Os)
    requires Valid(s) && Honest(s, os) && 0 in s.cells && os(SEGMENT_SIZE, SEGMENT_SIZE) != 0
    ensures var seg := os(SEGMENT_SIZE, SEGMENT_SIZE);
            && Valid(WithSegment(s, arena, seg)) && Same(s, WithSegment(s, arena, seg))
            && IsSegment(Insert(s.cells, seg), seg) && PageStart(seg, 1) !in s.pages
  {
    var seg := os(SEGMENT_SIZE, SEGMENT_SIZE);
    assert Unmapped(s, seg, SEGMENT_SIZE);
    assert IsSegment(s.cells, seg) ==> Apart(seg, SEGMENT_SIZE, seg, SEGMENT_SIZE);
    SegmentAdded(s.cells, seg);
    AddSegment(s, WithSegment(s, arena, seg), seg);
    NoPageYet(s, seg);
  }

  /** Pages in use lie in registered segments. */
  lemma NoPageYet(s: State, seg: nat)
    requires Valid(s) && seg % SEGMENT_SIZE == 0 && !IsSegment(s.cells, seg)
    ensures PageStart(seg, 1) !in s.pages
  {
    if PageStart(seg, 1) in s.pages {
      assert SlabOk(s, PageStart(seg, 1));
      PageBack(seg, 1, 0);
    }
  }

  // ---- free ----

  /** What a free leaves of a page. */
  ghost predicate FreeResult(p: Page, q: Page, t: Tid, k: nat) {
    && q == FreedBy(p, t, k)
    && q.cap == p.cap && q.exited == p.exited && q.owner == p.owner && q.cached == p.cached && q.bump == p.bump
    && q.live == p.live - {k} && k < |p.link| == |q.link|
    && (forall j | 0 <= j < |p.link| && j != k :: q.link[j] == p.link[j])
  }

  /** A freed slot goes in front of the local list if the page's owner frees it, and in front of the remote stack
      otherwise; the other list stays. */
  ghost predicate GoesTo(p: Page, q: Page, t: Tid, k: nat) {
    forall local, remote | Chain(p.link, p.localHead, local) && Chain(p.link, p.head.ptr, remote) ::
      if p.owner == Some(t) then Chain(q.link, q.localHead, [k] + local) && Chain(q.link, q.head.ptr, remote)
      else Chain(q.link, q.localHead, local) && Chain(q.link, q.head.ptr, [k] + remote)
  }

  lemma FreedGoesTo(p: Page, t: Tid, k: nat)
    requires Quiet(p) && k in p.live
    ensures GoesTo(p, FreedBy(p, t, k), t, k)
  {
    QuietFacts(p);
    var local0, remote0 := PageObject.FreeLists(p);
    forall local, remote | Chain(p.link, p.localHead, local) && Chain(p.link, p.head.ptr, remote)
      ensures local == local0 && remote == remote0
    {
      ChainUnique(p.link, p.localHead, local, local0);
      ChainUnique(p.link, p.head.ptr, remote, remote0);
    }
    FreedChains(p, t, k, local0, remote0);
  }

  lemma FreedChains(p: Page, t: Tid, k: nat, local: seq<nat>, remote: seq<nat>)
    requires Chain(p.link, p.localHead, local) && Chain(p.link, p.head.ptr, remote)
    requires k < |p.link| && k !in local && k !in remote
    ensures var q := FreedBy(p, t, k);
            if p.owner == Some(t) then Chain(q.link, q.localHead, [k] + local) && Chain(q.link, q.head.ptr, remote)
            else Chain(q.link, q.localHead, local) && Chain(q.link, q.head.ptr, [k] + remote)
  {
    var q := FreedBy(p, t, k);
    PageObject.PushedIff(p.link, p.localHead, local, k);
    PageObject.PushedIff(p.link, p.head.ptr, remote, k);
    ChainFrame(p.link, q.link, p.localHead, local);
    ChainFrame(p.link, q.link, p.head.ptr, remote);
  }

  method RunFree(p: Page, t: Tid, k: nat) returns (q: Page)
    requires Quiet(p) && k in p.live && t !in p.exited
    ensures Quiet(q) && FreeResult(p, q, t, k)
  {
    q := Freed(p, t, k);
    PageObject.FreedIs(p, t, k);
    QuietFacts(p);
  }

  lemma FreedSlot(s: State, s': State, start: nat, t: Tid, k: nat, q: Page)
    requires Valid(s) && start in s.pages && k in s.pages[start].page.live
    requires FreeResult(s.pages[start].page, q, t, k) && Quiet(q)
    requires s' == WithPage(s, start, q).(mem := WithLink(s.mem, SlotAddr(start, s.pages[start].size, k), q.link[k]))
    ensures Valid(s') && Loses(s, s', SlotAddr(start, s.pages[start].size, k))
  {
    assert SlabOk(s, start);
    ListsKept(s, WithPage(s, start, q), start, q);
    FreedAlike(s.pages[start], q, t, k);
    assert SlotMem(s'.mem, start, s'.pages[start], k);
    assert SlotChange(s, s', start, q, k);
    SlotLoss(s, s', start, q, k);
  }

  lemma FreedAlike(slab: Slab, q: Page, t: Tid, k: nat)
    requires SlabShape(slab) && FreeResult(slab.page, q, t, k)
    ensures SlabShape(slab.(page := q))
    ensures forall j: nat {:trigger SlotAlike(slab, slab.(page := q), j)} | j != k ::
      SlotAlike(slab, slab.(page := q), j)
  {
  }

  // ---- what calls promise ----

  /** A bin gives its slot, or just the size asked for if it is not served from pages. */
  ghost predicate BinGives(bin: nat, size: nat, n: nat) {
    LeastFit(bin, size) && n == if ClassSize(bin) <= PAGE_SIZE / 2 then SlotSize(ClassSize(bin)) else size
  }

  /** `n` is the size of the block that malloc gives for a request: above 128 KB the size itself, and below that the
      block of the least bin that fits. */
  ghost predicate BlockSize(size: nat, n: nat) {
    if size > MEDIUM_MAX then n == size else exists bin :: BinGives(bin, size, n)
  }

  lemma BinHolds(bin: nat, size: nat, n: nat)
    requires BinGives(bin, size, n)
    ensures size <= n
  {
    SlotSizeBounds(ClassSize(bin));
  }

  lemma BlockHolds(size: nat, n: nat)
    requires BlockSize(size, n)
    ensures size <= n
  {
    if size <= MEDIUM_MAX {
      var bin :| BinGives(bin, size, n);
      BinHolds(bin, size, n);
    }
  }

  /** The client gains the block that malloc gives for a request. */
  ghost predicate GainsBlock(s: State, s': State, ptr: nat, size: nat) {
    exists n: nat :: BlockSize(size, n) && Gains(s, s', ptr, n)
  }

  function ByteAt(mem: Memory, a: nat, i: nat): Byte { mem(a + i) }

  /** The `n` bytes at `to` are those that were at `from`. */
  ghost predicate SameBytes(mem': Memory, to: nat, mem: Memory, from: nat, n: nat) {
    forall i: nat | i < n :: ByteAt(mem', to, i) == ByteAt(mem, from, i)
  }

  function Lesser(n: nat, m: nat): nat { if n < m then n else m }

  /** The block of `n` bytes at `ptr` becomes one of `m` bytes at `r`, with the same contents up to the lesser of
      the old and the new size; every other block is left alone. */
  ghost predicate Reallocated(s: State, s': State, ptr: nat, n: nat, r: nat, size: nat, m: nat) {
    && IsBlock(s', r, m)
    && SameBytes(s'.mem, r, s.mem, ptr, Lesser(n, size))
    && (forall q: nat, m: nat | q != ptr && q != r :: IsBlock(s', q, m) <==> IsBlock(s, q, m))
    && Intact(s, s', ptr)
    && (r != ptr ==> NoBlock(s, r) && NoBlock(s', ptr))
  }

  /** A block that is large enough may stay where it is. */
  lemma InPlace(s: State, ptr: nat, n: nat, size: nat)
    requires IsBlock(s, ptr, n) && size <= n
    ensures Reallocated(s, s, ptr, n, ptr, size, n)
  {
  }

  /** After an allocation the old contents are copied to the new block. */
  lemma CopyStep(s: State, s1: State, s2: State, ptr: nat, n: nat, r: nat, m: nat, size: nat)
    requires IsBlock(s, ptr, n) && Gains(s, s1, r, m) && m >= size && Valid(s1)
    requires s2 == s1.(mem := Copied(s1.mem, r, ptr, Lesser(n, size)))
    ensures Valid(s2) && Intact(s, s2, r) && SameBytes(s2.mem, r, s.mem, ptr, Lesser(n, size))
    ensures forall q: nat, l: nat :: IsBlock(s2, q, l) <==> IsBlock(s1, q, l)
  {
    Overwrite(s1, s2, r, m);
    IntactOn(s, s1, s2, r);
    CopiedBytes(s, s1, ptr, n, r, Lesser(n, size));
  }

  lemma IntactOn(s: State, s1: State, s2: State, ptr: nat)
    requires Intact(s, s1, ptr) && SameBlocks(s, s1, ptr) && Intact(s1, s2, ptr)
    ensures Intact(s, s2, ptr)
  {
  }

  /** What is copied is what the block held before the allocation. */
  lemma CopiedBytes(s: State, s1: State, ptr: nat, n: nat, r: nat, k: nat)
    requires IsBlock(s, ptr, n) && Intact(s, s1, r) && ptr != r && k <= n
    ensures SameBytes(Copied(s1.mem, r, ptr, k), r, s.mem, ptr, k)
  {
    forall i: nat | i < k ensures ByteAt(Copied(s1.mem, r, ptr, k), r, i) == ByteAt(s.mem, ptr, i) {
      CopiedByte(s1.mem, r, ptr, k, i);
      HeldByte(s, s1, ptr, n, r, i);
    }
  }

  lemma CopiedByte(mem: Memory, r: nat, ptr: nat, k: nat, i: nat)
    requires i < k
    ensures ByteAt(Copied(mem, r, ptr, k), r, i) == ByteAt(mem, ptr, i)
  {
  }

  lemma HeldByte(s: State, s1: State, ptr: nat, n: nat, r: nat, i: nat)
    requires IsBlock(s, ptr, n) && Intact(s, s1, r) && ptr != r && i < n
    ensures ByteAt(s1.mem, ptr, i) == ByteAt(s.mem, ptr, i)
  {
  }

  /** Then the old block is freed. */
  lemma FreeStep(s: State, s1: State, s2: State, s3: State, ptr: nat, n: nat, r: nat, m: nat, size: nat)
    requires IsBlock(s, ptr, n) && Gains(s, s1, r, m) && m >= size
    requires Intact(s, s2, r) && SameBytes(s2.mem, r, s.mem, ptr, Lesser(n, size)) && Loses(s2, s3, ptr)
    requires forall q: nat, l: nat :: IsBlock(s2, q, l) <==> IsBlock(s1, q, l)
    ensures Reallocated(s, s3, ptr, n, r, size, m)
  {
    assert IsBlock(s2, r, m) && IsBlock(s3, r, m);
    forall i: nat | i < Lesser(n, size) ensures ByteAt(s3.mem, r, i) == ByteAt(s.mem, ptr, i) {
      assert ByteAt(s2.mem, r, i) == ByteAt(s.mem, ptr, i);
    }
    forall q: nat, l: nat, a: nat | IsBlock(s, q, l) && q <= a < q + l && q != ptr ensures s3.mem(a) == s.mem(a) {
      assert IsBlock(s2, q, l);
    }
  }

  lemma HonestSame(s: State, s': State, os: Os)
    requires Honest(s, os) && s'.cells == s.cells && s'.large == s.large
    ensures Honest(s', os)
  {
    forall n: nat, a: nat | a > 0 && os(n, a) != 0 ensures Unmapped(s', os(n, a), n) {
      assert Unmapped(s, os(n, a), n);
    }
  }

  /** A new block is cleared. */
  lemma ClearedOk(s: State, s1: State, s2: State, ptr: nat, size: nat)
    requires Valid(s1) && GainsBlock(s, s1, ptr, size) && s2 == s1.(mem := Zeroed(s1.mem, ptr, size))
    ensures Valid(s2) && GainsBlock(s, s2, ptr, size)
  {
    var n: nat :| BlockSize(size, n) && Gains(s, s1, ptr, n);
    BlockHolds(size, n);
    Overwrite(s1, s2, ptr, n);
    assert Gains(s, s2, ptr, n);
  }

  /** The mapping of a large allocation holds `ptr`. */
  predicate Covers(la: Large, ptr: nat) { la.base <= ptr < la.base + la.size }

  /** `ptr` lies in no registered segment and in no large mapping. */
  ghost predicate Astray(cells: seq<nat>, large: seq<Large>, ptr: nat) {
    |cells| == REGISTRY_SIZE && PtrToSegment(cells, ptr) == 0 && NoCover(large, ptr)
  }

  ghost predicate Foreign(s: State, ptr: nat) { Astray(s.cells, s.large, ptr) }

  /** `ptr` lies in a data page that is not in use. */
  ghost predicate Unused(s: State, ptr: nat) {
    && |s.cells| == REGISTRY_SIZE && PtrToSegment(s.cells, ptr) != 0
    && var seg := PtrToSegment(s.cells, ptr);
    seg <= ptr && PageIndex(seg, ptr) > 0 && PtrToPage(seg, ptr) !in s.pages
  }

  ghost predicate NoCover(large: seq<Large>, ptr: nat) {
    forall i | 0 <= i < |large| :: !Covers(large[i], ptr)
  }

  /** The mapping that holds the pointer of a large block is its own. */
  lemma OwnMapping(s: State, w: nat, ptr: nat, n: nat)
    requires Valid(s) && LargeBlock(s, w, ptr, n)
    ensures Covers(s.large[w], ptr) && forall i | 0 <= i < |s.large| && i != w :: !Covers(s.large[i], ptr)
  {
    assert LargeOk(s, w);
    forall i | 0 <= i < |s.large| && i != w ensures !Covers(s.large[i], ptr) { LargeDisjoint(s, i, w); }
  }

  /** `ptr` is the address of a live slot of the page at `start`. */
  ghost predicate LiveAt(s: State, start: nat, ptr: nat) {
    && start in s.pages && start <= ptr && s.pages[start].size > 0
    && var k := (ptr - start) / s.pages[start].size;
    k in s.pages[start].page.live && ptr == SlotAddr(start, s.pages[start].size, k)
  }

  /** The pointer of a block leads to its page, or else to its large mapping. */
  lemma BlockOrigin(s: State, ptr: nat, n: nat)
    requires Valid(s) && IsBlock(s, ptr, n)
    ensures |s.cells| == REGISTRY_SIZE
    ensures var seg := PtrToSegment(s.cells, ptr);
            if seg != 0 then
              && seg <= ptr && LiveAt(s, PtrToPage(seg, ptr), ptr)
              && s.pages[PtrToPage(seg, ptr)].size == n
            else exists i: nat :: LargeBlock(s, i, ptr, n)
    ensures !Foreign(s, ptr) && !Unused(s, ptr)
  {
    if start: nat, k: nat :| SlabBlock(s, start, k, ptr, n) {
      LiveInPage(s, start, k);
      SlotToPage(s, start, k);
    } else {
      var i: nat :| LargeBlock(s, i, ptr, n);
      LargeToNone(s, i);
      OwnMapping(s, i, ptr, n);
    }
  }
}
