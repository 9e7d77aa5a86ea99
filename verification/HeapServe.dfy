/** What the calls do to the whole state of the allocator: which page serves an allocation, which slot it gives, and
    where a freed slot goes. */
module HeapServe {
  import opened Basics
  import opened Bits
  import opened Registry
  import opened Geometry
  import opened SizeClass
  import opened PageProtocol
  import opened PageForms
  import opened PageSolo
  import opened HeapState
  import opened HeapSteps
  import opened HeapPaths
  import opened HeapLimits
  import L = Large

  // ---- the page an allocation takes from the arena ----

  /** The first page of the list that is unowned with virgin slots. */
  ghost predicate FirstUnowned(pages: map<nat, Slab>, list: seq<nat>, start: nat) {
    exists i | 0 <= i < |list| ::
      list[i] == start && start in pages && Unowned(pages[start].page) && NoneUnowned(pages, list[..i])
  }

  /** The first unused page of the first segment in the list that has one. */
  ghost predicate FirstUnused(pages: map<nat, Slab>, list: seq<nat>, start: nat) {
    exists j | 0 <= j < |list| :: AllUsed(pages, list[..j]) && FirstIn(pages, list[j], start)
  }

  ghost predicate FirstIn(pages: map<nat, Slab>, seg: nat, start: nat) {
    exists i | 0 < i < PAGES_PER_SEGMENT ::
      start == PageStart(seg, i) && start !in pages && forall l | 0 < l < i :: PageStart(seg, l) in pages
  }

  function NewSeg(os: Os): nat { os(SEGMENT_SIZE, SEGMENT_SIZE) }

  /** The page arena_alloc takes: an unowned one with virgin slots, an unused one, or the first of a new segment. */
  ghost predicate Chosen(s: State, arena: nat, bin: nat, os: Os, start: nat) {
    if !NoneUnowned(s.pages, BinList(s, arena, bin)) then FirstUnowned(s.pages, BinList(s, arena, bin), start)
    else if !AllUsed(s.pages, SegmentList(s, arena)) then FirstUnused(s.pages, SegmentList(s, arena), start)
    else start == PageStart(NewSeg(os), 1) && start !in s.pages
  }

  /** The arena's lists and the registry: as they were for a page in use; otherwise the page is put in front of its
      list, and a segment that had to be made in front of the arena's segments. */
  ghost predicate ArenaAfter(s: State, s': State, arena: nat, bin: nat, os: Os, start: nat) {
    if start in s.pages then
      s'.bins == s.bins && s'.segments == s.segments && s'.cells == s.cells && s'.mem == s.mem
    else
      && s'.bins == s.bins[(arena, bin) := [start] + BinList(s, arena, bin)]
      && if AllUsed(s.pages, SegmentList(s, arena)) then
           && s'.segments == s.segments[arena := [NewSeg(os)] + SegmentList(s, arena)]
           && |s.cells| == REGISTRY_SIZE && s'.cells == Insert(s.cells, NewSeg(os))
           && s'.mem == Zeroed(s.mem, NewSeg(os), SEGMENT_SIZE)
         else s'.segments == s.segments && s'.cells == s.cells && s'.mem == s.mem
  }

  /** The page as it is taken: with what it holds, or blank. */
  function Before(s: State, bin: nat, start: nat): Slab {
    if start in s.pages then s.pages[start] else BlankSlab(bin)
  }

  /** The next virgin slot of page `start` is handed out. A caller with thread-local data becomes the owner of the page
      and caches it. */
  ghost predicate Bumps(s: State, s': State, t: Tid, bin: nat, ptr: nat, start: nat) {
    && var slab := Before(s, bin, start);
    && ptr == SlotAddr(start, slab.size, slab.page.bump)
    && s'.pages == s.pages[start := slab.(page := Claimed(slab.page, t, t != NO_TLD))]
    && s'.cache == (if t == NO_TLD then s.cache else s.cache[(t, bin) := start])
    && s'.pages[start].page.owner == (if t == NO_TLD then None else Some(t))
    && s'.large == s.large
  }

  /** An allocation by the slow path. */
  ghost predicate SlowServes(s: State, s': State, t: Tid, arena: nat, bin: nat, os: Os, ptr: nat, start: nat) {
    Chosen(s, arena, bin, os, start) && ArenaAfter(s, s', arena, bin, os, start) && Bumps(s, s', t, bin, ptr, start)
  }

  // ---- the cached page ----

  ghost predicate HasCached(s: State, t: Tid, bin: nat) {
    t != NO_TLD && (t, bin) in s.cache && s.cache[(t, bin)] in s.pages
  }

  /** The caller's page for the bin, if it has one, is dropped. */
  ghost function Dropped(s: State, t: Tid, bin: nat): State {
    if !HasCached(s, t, bin) then s
    else
      var start := s.cache[(t, bin)];
      var page := s.pages[start].page;
      s.(pages := s.pages[start := s.pages[start].(page := page.(cached := page.cached - {t}))],
         cache := s.cache - {(t, bin)})
  }

  /** An allocation from the cached page: its first free slot. */
  ghost predicate CacheServes(s: State, s': State, t: Tid, bin: nat, ptr: nat) {
    HasCached(s, t, bin) && exists remote :: DrawsFrom(s, s', t, s.cache[(t, bin)], remote, ptr)
  }

  ghost predicate DrawsFrom(s: State, s': State, t: Tid, start: nat, remote: seq<nat>, ptr: nat) {
    && start in s.pages
    && var slab := s.pages[start];
    && Chain(slab.page.link, slab.page.head.ptr, remote)
    && s' == WithPage(s, start, Drawn(slab.page, t, remote))
    && ptr == SlotAddr(start, slab.size, FirstFree(slab.page, remote))
  }

  /** An allocation from pages: from the cached page if that has a free slot, and otherwise, after the cached page is
      dropped, by the slow path. */
  ghost predicate PagesServe(s: State, s': State, t: Tid, arena: Option<nat>, bin: nat, os: Os, ptr: nat) {
    if !CacheSpent(s, t, bin) then CacheServes(s, s', t, bin, ptr)
    else if ptr == 0 then s' == Dropped(s, t, bin)
    else arena.Some? && exists start :: SlowServes(Dropped(s, t, bin), s', t, arena.value, bin, os, ptr, start)
  }

  /** An allocation in a mapping of its own. */
  ghost predicate LargeServes(s: State, s': State, size: nat, alignment: nat, os: Os, osPage: nat, ptr: nat)
    requires alignment > 0 && osPage > 0
  {
    var base := Granted(os, size, alignment, osPage);
    if ptr == 0 then s' == s && base == 0
    else
      && base != 0 && ptr == base + L.HeaderSpace(alignment)
      && s' == WithLarge(s, base, L.Total(size, alignment, osPage), L.HeaderSpace(alignment), size)
  }

  ghost predicate BinServes(s: State, s': State, t: Tid, arena: Option<nat>, bin: nat, size: nat, os: Os, osPage: nat,
                            ptr: nat)
    requires osPage > 0
  {
    LeastFit(bin, size) &&
    if ClassSize(bin) <= PAGE_SIZE / 2 then PagesServe(s, s', t, arena, bin, os, ptr)
    else LargeServes(s, s', size, MIN_ALIGN, os, osPage, ptr)
  }

  ghost predicate SlabServes(s: State, s': State, t: Tid, arena: Option<nat>, size: nat, os: Os, osPage: nat, ptr: nat)
    requires osPage > 0
  {
    exists bin :: BinServes(s, s', t, arena, bin, size, os, osPage, ptr)
  }

  /** What malloc does. */
  ghost predicate Serves(s: State, s': State, t: Tid, arena: Option<nat>, size: nat, os: Os, osPage: nat, ptr: nat)
    requires osPage > 0
  {
    if size > MEDIUM_MAX then LargeServes(s, s', size, MIN_ALIGN, os, osPage, ptr)
    else SlabServes(s, s', t, arena, Bytes(size), os, osPage, ptr)
  }

  // ---- free ----

  /** A slot is taken back: its page changes as the closed form says, its lists as `GoesTo` says, and its first word
      becomes its link. */
  ghost predicate TakesSlot(s: State, s': State, t: Tid, start: nat, ptr: nat) {
    && start in s.pages && start <= ptr && s.pages[start].size > 0
    && var slab := s.pages[start];
    && var k := (ptr - start) / slab.size;
    && s' == WithPage(s, start, FreedBy(slab.page, t, k)).(mem := s'.mem)
    && s'.mem == WithLink(s.mem, ptr, Fetch(s'.pages[start].page.link, k))
    && GoesTo(slab.page, s'.pages[start].page, t, k)
  }

  /** The only mapping that holds the pointer is released, if there is one. */
  ghost predicate TakesMapping(s: State, s': State, ptr: nat) {
    if NoCover(s.large, ptr) then s' == s
    else exists i | 0 <= i < |s.large| :: Covers(s.large[i], ptr) && s' == s.(large := s.large[..i] + s.large[i + 1..])
  }

  /** What free does. */
  ghost predicate Takes(s: State, s': State, t: Tid, ptr: nat) {
    && |s.cells| == REGISTRY_SIZE
    && var seg := PtrToSegment(s.cells, ptr);
    if ptr == 0 then s' == s
    else if seg == 0 then TakesMapping(s, s', ptr)
    else if seg <= ptr && PtrToPage(seg, ptr) in s.pages then TakesSlot(s, s', t, PtrToPage(seg, ptr), ptr)
    else s' == s
  }

  // ---- what follows ----

  lemma SlowSettles(s: State, s': State, t: Tid, arena: nat, bin: nat, os: Os, ptr: nat, start: nat)
    requires SlowServes(s, s', t, arena, bin, os, ptr, start) && Before(s, bin, start).bin == bin
    requires Before(s, bin, start).size == SlotSize(ClassSize(bin))
    ensures Settled(s, s', t, bin, ptr)
  {
    var slab := Before(s, bin, start);
    assert SlabBlock(s', start, slab.page.bump, ptr, slab.size);
    assert SettledAt(s, s', t, bin, ptr, start);
  }

  /** Dropping the cached page first makes no difference to who is settled. */
  lemma DroppedSettles(s: State, s': State, t: Tid, bin: nat, ptr: nat)
    requires Settled(Dropped(s, t, bin), s', t, bin, ptr)
    ensures Settled(s, s', t, bin, ptr)
  {
    var start :| SettledAt(Dropped(s, t, bin), s', t, bin, ptr, start);
    if HasCached(s, t, bin) {
      assert (s.cache - {(t, bin)})[(t, bin) := start] == s.cache[(t, bin) := start];
    }
    assert SettledAt(s, s', t, bin, ptr, start);
  }

  /** The fast path has served from the cached page. */
  lemma DrawnServes(s: State, s': State, t: Tid, bin: nat, r: Outcome, ptr: nat)
    requires Valid(s) && HasCached(s, t, bin) && r.Slot?
    requires FastResult(s.pages[s.cache[(t, bin)]].page, t, r)
    requires s' == WithPage(s, s.cache[(t, bin)], r.page)
    requires ptr == SlotAddr(s.cache[(t, bin)], s.pages[s.cache[(t, bin)]].size, r.slot)
    ensures CacheServes(s, s', t, bin, ptr) && Settled(s, s', t, bin, ptr)
  {
    var start := s.cache[(t, bin)];
    PageQuiet(s, start);
    var p := s.pages[start].page;
    var remote :| DrawnAs(p, t, remote, r);
    assert DrawsFrom(s, s', t, start, remote, ptr);
    assert SlabBlock(s', start, r.slot, ptr, SlotSize(ClassSize(bin)));
    QuietFacts(p);
    assert s.cache == s.cache[(t, bin) := start];
    assert SettledAt(s, s', t, bin, ptr, start);
  }

  lemma FastSlot(s: State, s': State, t: Tid, bin: nat, r: Outcome, ptr: nat)
    requires Valid(s) && HasCached(s, t, bin) && r.Slot? && Quiet(r.page)
    requires FastResult(s.pages[s.cache[(t, bin)]].page, t, r)
    requires s' == WithPage(s, s.cache[(t, bin)], r.page)
    requires ptr == SlotAddr(s.cache[(t, bin)], s.pages[s.cache[(t, bin)]].size, r.slot)
    ensures Valid(s') && Gains(s, s', ptr, SlotSize(ClassSize(bin))) && ptr != 0
    ensures r.virgin ==> Zeros(s'.mem, ptr, SlotSize(ClassSize(bin)))
    ensures CacheServes(s, s', t, bin, ptr) && Settled(s, s', t, bin, ptr) && !CacheSpent(s, t, bin)
  {
    PageQuiet(s, s.cache[(t, bin)]);
    CachedSlot(s, t, s.cache[(t, bin)], r);
    DrawnServes(s, s', t, bin, r, ptr);
  }

  lemma FastFull(s: State, s': State, t: Tid, bin: nat, r: Outcome)
    requires Valid(s) && HasCached(s, t, bin) && r.Full? && Quiet(r.page)
    requires FastResult(s.pages[s.cache[(t, bin)]].page, t, r)
    requires s' == WithPage(s, s.cache[(t, bin)], r.page).(cache := s.cache - {(t, bin)})
    ensures Valid(s') && Same(s, s') && s' == Dropped(s, t, bin) && AlikePages(s.pages, s'.pages)
    ensures CacheSpent(s, t, bin)
  {
    CachedFull(s, s', t, bin, r);
    DrawnDrops(s, s', t, bin, r);
  }

  /** The fast path has dropped the cached page. */
  lemma DrawnDrops(s: State, s': State, t: Tid, bin: nat, r: Outcome)
    requires HasCached(s, t, bin) && r.Full? && FastResult(s.pages[s.cache[(t, bin)]].page, t, r)
    requires s' == WithPage(s, s.cache[(t, bin)], r.page).(cache := s.cache - {(t, bin)})
    ensures s' == Dropped(s, t, bin) && AlikePages(s.pages, s'.pages)
  {
    var p := s.pages[s.cache[(t, bin)]].page;
    var remote :| DrawnAs(p, t, remote, r);
  }

  /** What my_memalign does with a power of two. */
  ghost predicate MemalignServes(s: State, s': State, t: Tid, arena: Option<nat>, alignment: nat, size: nat, os: Os,
                                 osPage: nat, ptr: nat)
    requires osPage > 0
  {
    match L.Memalign(alignment, size)
    case Invalid => false
    case Plain => Serves(s, s', t, arena, size, os, osPage, ptr)
    case Aligned => alignment > 0 && LargeServes(s, s', size, alignment, os, osPage, ptr)
    case Slab(rounded) => SlabServes(s, s', t, arena, rounded, os, osPage, ptr)
  }

  /** A block's pointer leads to it. */
  ghost predicate BlockLeads(s: State, ptr: nat, n: nat) {
    && |s.cells| == REGISTRY_SIZE && !Foreign(s, ptr) && !Unused(s, ptr)
    && var seg := PtrToSegment(s.cells, ptr);
    if seg != 0 then
      && seg <= ptr && LiveAt(s, PtrToPage(seg, ptr), ptr) && s.pages[PtrToPage(seg, ptr)].size == n
    else exists i: nat :: LargeBlock(s, i, ptr, n)
  }

  /** A slot has been freed. */
  lemma SlotTaken(s: State, s': State, t: Tid, start: nat, ptr: nat, k: nat, q: Page)
    requires Valid(s) && LiveAt(s, start, ptr) && k == (ptr - start) / s.pages[start].size
    requires Quiet(q) && FreeResult(s.pages[start].page, q, t, k)
    requires s' == WithPage(s, start, q).(mem := WithLink(s.mem, ptr, q.link[k]))
    ensures Valid(s') && Loses(s, s', ptr) && TakesSlot(s, s', t, start, ptr)
  {
    PageQuiet(s, start);
    FreedGoesTo(s.pages[start].page, t, k);
    FreedSlot(s, s', start, t, k, q);
  }

  // ---- free, and malloc again ----

  /** The slot that the owner has freed is the first it will find. */
  ghost predicate NextOut(s: State, t: Tid, bin: nat, ptr: nat) {
    && HasCached(s, t, bin)
    && var slab := s.pages[s.cache[(t, bin)]];
    && slab.page.localHead.At? && slab.page.localHead.slot !in slab.page.live
    && slab.page.localHead.slot < slab.page.cap
    && ptr == SlotAddr(s.cache[(t, bin)], slab.size, slab.page.localHead.slot)
  }

  lemma NotNull(s: State, ptr: nat)
    requires Valid(s) && !NoBlock(s, ptr)
    ensures ptr != 0
  {
    var n: nat :| IsBlock(s, ptr, n);
    BlocksDisjoint(s, ptr, n, ptr, n);
  }

  lemma FreedIsFirst(s: State, s': State, t: Tid, ptr: nat, bin: nat)
    requires Valid(s) && t != NO_TLD && !NoBlock(s, ptr) && |s.cells| == REGISTRY_SIZE
    requires PtrToSegment(s.cells, ptr) != 0 && PtrToSegment(s.cells, ptr) <= ptr && ptr != 0
    requires var start := PtrToPage(PtrToSegment(s.cells, ptr), ptr);
             && start in s.pages && s.pages[start].bin == bin && (t, bin) in s.cache && s.cache[(t, bin)] == start
    requires Takes(s, s', t, ptr)
    ensures NextOut(s', t, bin, ptr) && ClassSize(bin) <= PAGE_SIZE / 2
  {
    var start := PtrToPage(PtrToSegment(s.cells, ptr), ptr);
    var n: nat :| IsBlock(s, ptr, n);
    BlockOrigin(s, ptr, n);
    PageQuiet(s, start);
    QuietFacts(s.pages[start].page);
    assert SlabOk(s, start);
  }

  lemma FirstComesBack(s: State, s': State, t: Tid, arena: Option<nat>, bin: nat, ptr: nat, size: nat, os: Os,
                       osPage: nat, again: nat)
    requires osPage > 0 && 0 < size <= MEDIUM_MAX && LeastFit(bin, size) && NextOut(s, t, bin, ptr)
    requires ClassSize(bin) <= PAGE_SIZE / 2 && Serves(s, s', t, arena, size, os, osPage, again)
    ensures again == ptr
  {
    var b :| BinServes(s, s', t, arena, b, size, os, osPage, again);
    OneBin(b, bin, size);
    assert !CacheSpent(s, t, bin);
  }

  lemma FirstNotLost(s: State, t: Tid, arena: Option<nat>, bin: nat, ptr: nat, size: nat, os: Os, osPage: nat)
    requires osPage > 0 && 0 < size <= MEDIUM_MAX && LeastFit(bin, size) && NextOut(s, t, bin, ptr)
    ensures !Lost(s, t, arena, size, os, osPage)
  {
    assert !CacheSpent(s, t, bin);
    BinDecides(s, t, arena, bin, size, os, osPage);
  }

  // ---- putting the parts of the slow path together ----

  /** The page arena_alloc takes when it finds no unowned one. */
  ghost predicate FreshChosen(s: State, arena: nat, os: Os, start: nat) {
    if !AllUsed(s.pages, SegmentList(s, arena)) then FirstUnused(s.pages, SegmentList(s, arena), start)
    else start == PageStart(NewSeg(os), 1) && start !in s.pages
  }

  /** A page is made at `s`, which gives `s1`, and bumped. */
  lemma FreshServes(s: State, s1: State, s2: State, t: Tid, arena: nat, bin: nat, os: Os, ptr: nat, start: nat)
    requires NoneUnowned(s.pages, BinList(s, arena, bin)) && FreshChosen(s, arena, os, start)
    requires start !in s.pages && s1.pages == s.pages[start := BlankSlab(bin)]
    requires ArenaAfter(s, s1, arena, bin, os, start) && s1.cache == s.cache && s1.large == s.large
    requires Bumps(s1, s2, t, bin, ptr, start) && s2 == s1.(pages := s2.pages, cache := s2.cache)
    ensures SlowServes(s, s2, t, arena, bin, os, ptr, start) && Settled(s, s2, t, bin, ptr)
  {
    assert Before(s, bin, start) == BlankSlab(bin) == Before(s1, bin, start);
    assert s2.pages == s.pages[start := BlankSlab(bin).(page := Claimed(BlankSlab(bin).page, t, t != NO_TLD))];
    SlowSettles(s, s2, t, arena, bin, os, ptr, start);
  }

  /** An unowned page of the list is bumped. */
  lemma FoundServes(s: State, s': State, t: Tid, arena: nat, bin: nat, os: Os, ptr: nat, start: nat)
    requires FirstUnowned(s.pages, BinList(s, arena, bin), start) && !NoneUnowned(s.pages, BinList(s, arena, bin))
    requires start in s.pages && s.pages[start].bin == bin && s.pages[start].size == SlotSize(ClassSize(bin))
    requires Bumps(s, s', t, bin, ptr, start) && s' == s.(pages := s'.pages, cache := s'.cache)
    ensures SlowServes(s, s', t, arena, bin, os, ptr, start) && Settled(s, s', t, bin, ptr)
  {
    SlowSettles(s, s', t, arena, bin, os, ptr, start);
  }

  /** The bump leaves the allocator in order, and the client with a zeroed slot. */
  lemma BumpIs(s: State, s': State, t: Tid, bin: nat, ptr: nat, start: nat, q: Page)
    requires start in s.pages && s.pages[start].bin == bin && SlowResult(s.pages[start].page, q, t, t != NO_TLD)
    requires ptr == SlotAddr(start, s.pages[start].size, s.pages[start].page.bump)
    requires s' == s.(pages := s.pages[start := s.pages[start].(page := q)],
                      cache := if t == NO_TLD then s.cache else s.cache[(t, bin) := start])
    ensures Bumps(s, s', t, bin, ptr, start) && s'.pages[start].page.owner == if t == NO_TLD then None else Some(t)
    ensures t != NO_TLD ==> t in s'.pages[start].page.cached
  {
  }

  lemma BumpOk(s: State, s': State, t: Tid, bin: nat, ptr: nat, start: nat, q: Page)
    requires Valid(s) && start in s.pages && s.pages[start].bin == bin && Quiet(q)
    requires SlowResult(s.pages[start].page, q, t, t != NO_TLD) && Bumps(s, s', t, bin, ptr, start)
    requires s' == s.(pages := s.pages[start := s.pages[start].(page := q)], cache := s'.cache)
    ensures var slot := SlotSize(ClassSize(bin));
            Valid(s') && ptr != 0 && Gains(s, s', ptr, slot) && Zeros(s'.mem, ptr, slot)
  {
    PageQuiet(s, start);
    UnownedSlot(s, s', t, start, q, t != NO_TLD);
  }

  lemma FirstSlot(start: nat, size: nat, k: nat)
    requires k == 0
    ensures SlotAddr(start, size, k) == start
  {
  }

  /** A page is made at `s`, which gives `s1`, and bumped, which gives `s2`. */
  lemma FreshOutcome(s: State, s1: State, s2: State, t: Tid, arena: nat, bin: nat, os: Os, ptr: nat, start: nat)
    requires NoneUnowned(s.pages, BinList(s, arena, bin)) && FreshChosen(s, arena, os, start)
    requires start !in s.pages && s1.pages == s.pages[start := BlankSlab(bin)]
    requires ArenaAfter(s, s1, arena, bin, os, start) && s1.cache == s.cache && s1.large == s.large
    requires Bumps(s1, s2, t, bin, ptr, start) && s2 == s1.(pages := s2.pages, cache := s2.cache)
    requires if Valid(s1) then Same(s, s1) && Valid(s2) && Gains(s1, s2, ptr, SlotSize(ClassSize(bin)))
             else Orphaned(s1.segments, s1.cells, arena)
    ensures SlowServes(s, s2, t, arena, bin, os, ptr, start) && Settled(s, s2, t, bin, ptr)
    ensures Valid(s2) <==> Valid(s1)
    ensures Valid(s1) ==> Gains(s, s2, ptr, SlotSize(ClassSize(bin)))
    ensures ptr == start
  {
    FreshServes(s, s1, s2, t, arena, bin, os, ptr, start);
    assert s1.pages[start] == BlankSlab(bin);
    FirstSlot(start, s1.pages[start].size, s1.pages[start].page.bump);
    if Valid(s1) { SameGains(s, s1, s2, ptr, SlotSize(ClassSize(bin))); } else { OrphanedIsBad(s2, arena); }
  }

  /** The first page of a new segment. */
  lemma SegmentPage(s: State, arena: nat, bin: nat, os: Os)
    requires |s.cells| == REGISTRY_SIZE && AllUsed(s.pages, SegmentList(s, arena))
    requires PageStart(NewSeg(os), 1) !in s.pages
    ensures ArenaAfter(s, WithNewPage(WithSegment(s, arena, NewSeg(os)), arena, bin, NewSeg(os), 1), arena, bin, os,
                       PageStart(NewSeg(os), 1))
  {
  }

  lemma FirstOfSegment(pages: map<nat, Slab>, seg: nat, i: Option<nat>)
    requires PageStart(seg, 1) !in pages && (i.None? <==> SegmentUsed(pages, seg))
    requires i.Some? ==> 0 < i.value && forall j | 0 < j < i.value :: PageStart(seg, j) in pages
    ensures i == Some(1)
  {
  }
}
