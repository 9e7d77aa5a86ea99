/** The public interface, called by any threads one call at a time: it refines a set of disjoint live
    blocks. The answers of os_mmap_aligned are a parameter of the calls that may map memory. */
module HeapApi {
  import opened Basics
  import opened Bits
  import opened Registry
  import opened Geometry
  import opened SizeClass
  import opened PageProtocol
  import opened PageSolo
  import opened HeapState
  import opened HeapSteps
  import opened HeapPaths
  import opened HeapLimits
  import opened HeapServe
  import opened PageForms
  import L = Large

  class Allocator {
    const tables: Tables
    const osPage: nat
    var mem: Memory
    var pages: map<nat, Slab>
    var cache: map<(Tid, nat), nat>
    var bins: Bins
    var segments: map<nat, seq<nat>>
    var cells: seq<nat>
    var large: seq<Large>

    ghost function Now(): State
      reads this
    {
      State(mem, pages, cache, bins, segments, cells, large)
    }

    ghost predicate Ok()
      reads this, tables.binSize, tables.smallBin
    {
      tables.Filled() && PowerOfTwo(osPage) && MIN_ALIGN <= osPage <= SEGMENT_SIZE && Valid(Now())
    }

    /** The registry has room for another segment. */
    predicate HasRoom()
      reads this
    {
      0 in cells
    }

    constructor (tables: Tables, osPage: nat)
      requires tables.Filled() && PowerOfTwo(osPage) && MIN_ALIGN <= osPage <= SEGMENT_SIZE
      ensures Ok() && HasRoom() && forall ptr: nat :: NoBlock(Now(), ptr)
    {
      this.tables, this.osPage := tables, osPage;
      mem := _ => ZERO;
      pages, cache, bins, segments := map[], map[], map[], map[];
      cells := seq(REGISTRY_SIZE, _ => 0);
      large := [];
      new;
      assert cells[0] == 0;
    }

    // ---- large allocations ----

    /** large_alloc_aligned. */
    method LargeAlloc(size: nat, alignment: nat, os: Os) returns (ptr: nat)
      requires Ok() && Honest(Now(), os) && Sizes(osPage, alignment, size)
      modifies `mem, `large
      ensures Ok() <==> !LargeLost(size, alignment, os, osPage)
      ensures ptr == 0 <==> Granted(os, size, alignment, osPage) == 0
      ensures LargeServes(old(Now()), Now(), size, alignment, os, osPage, ptr)
      ensures ptr != 0 ==> ptr % alignment == 0
      ensures ptr != 0 && Ok() ==> Gains(old(Now()), Now(), ptr, size) && Zeros(mem, ptr, size)
      ensures ptr != 0 && !Ok() ==> Overhangs(large, ptr, size)
    {
      var space, total := L.HeaderSpace(alignment), L.Total(size, alignment, osPage);
      var base := os(total, OsAlign(alignment, osPage));
      if base == 0 { return 0; }
      LargeFitsIff(Now(), os, osPage, alignment, size);
      mem := Zeroed(mem, base, total);
      ptr := base + space;
      large := [Large(base, total, ptr, size)] + large;
    }

    // ---- slab allocation ----

    /** The scan of arena_alloc for an unowned page with virgin slots. */
    method ScanBin(arena: nat, bin: nat) returns (start: Option<nat>)
      requires Ok()
      ensures start.Some? ==> start.value in pages && pages[start.value].bin == bin && Unowned(pages[start.value].page)
      ensures start.None? <==> NoneUnowned(pages, BinList(Now(), arena, bin))
      ensures start.Some? ==> FirstUnowned(pages, BinList(Now(), arena, bin), start.value)
    {
      if (arena, bin) !in bins { return None; }
      var list := bins[(arena, bin)];
      for i := 0 to |list|
        invariant NoneUnowned(pages, list[..i])
      {
        assert list[i] in pages && pages[list[i]].bin == bin;
        if Unowned(pages[list[i]].page) { return Some(list[i]); }
      }
      assert list[..|list|] == list;
      return None;
    }

    /** The search of segment_alloc_page. */
    method UnusedPage(seg: nat) returns (i: Option<nat>)
      ensures i.Some? ==> 0 < i.value < PAGES_PER_SEGMENT && PageStart(seg, i.value) !in pages
      ensures i.Some? ==> forall j | 0 < j < i.value :: PageStart(seg, j) in pages
      ensures i.Some? ==> FirstIn(pages, seg, PageStart(seg, i.value))
      ensures i.None? <==> SegmentUsed(pages, seg)
    {
      for j := 1 to PAGES_PER_SEGMENT
        invariant forall l | 0 < l < j :: PageStart(seg, l) in pages
      {
        if PageStart(seg, j) !in pages { return Some(j); }
      }
      return None;
    }

    /** A page that was not in use is added, blank, for the bin. */
    ghost predicate Added(was: map<nat, Slab>, now: map<nat, Slab>, start: nat, bin: nat) {
      start !in was && now == was[start := BlankSlab(bin)] && Unowned(now[start].page)
    }

    /** The page is put at the front of its bin list, and no other list changes. */
    ghost predicate Listed(was: Bins, now: Bins, arena: nat, bin: nat, start: nat) {
      now == was[(arena, bin) := [start] + if (arena, bin) in was then was[(arena, bin)] else []]
    }

    /** page_init and bin_insert_page. */
    method InstallPage(arena: nat, bin: nat, seg: nat, i: nat) returns (start: nat)
      requires 0 < i < PAGES_PER_SEGMENT && PageStart(seg, i) !in pages
      requires bin < BIN_COUNT && ClassSize(bin) <= PAGE_SIZE / 2
      modifies `pages, `bins
      ensures Now() == WithNewPage(old(Now()), arena, bin, seg, i)
      ensures start == PageStart(seg, i) && Added(old(pages), pages, start, bin)
      ensures Listed(old(bins), bins, arena, bin, start)
      ensures old(Ok()) && IsSegment(cells, seg) ==> Ok() && Same(old(Now()), Now())
    {
      start := PageStart(seg, i);
      if Ok() && IsSegment(cells, seg) { InstallOk(Now(), arena, bin, seg, i); }
      BlankSlabOk(bin);
      bins := bins[(arena, bin) := [start] + if (arena, bin) in bins then bins[(arena, bin)] else []];
      pages := pages[start := BlankSlab(bin)];
    }

    /** segment_create, and its insertion into the arena; a full registry drops the registration silently. */
    method NewSegment(arena: nat, os: Os) returns (seg: nat)
      requires Ok() && Honest(Now(), os)
      modifies `mem, `cells, `segments
      ensures seg == os(SEGMENT_SIZE, SEGMENT_SIZE)
      ensures seg == 0 ==> Now() == old(Now())
      ensures seg != 0 ==> PageStart(seg, 1) !in pages && |old(cells)| == REGISTRY_SIZE
      ensures seg != 0 ==> Now() == WithSegment(old(Now()), arena, seg)
      ensures seg != 0 ==> SegmentList(Now(), arena) == [seg] + SegmentList(old(Now()), arena)
      ensures seg != 0 && old(HasRoom()) ==> Ok() && Same(old(Now()), Now()) && IsSegment(cells, seg)
      ensures seg != 0 && !old(HasRoom()) ==> !Ok() && Orphaned(segments, cells, arena) && Beyond(cells, large, seg)
    {
      seg := os(SEGMENT_SIZE, SEGMENT_SIZE);
      if seg == 0 { return; }
      SegmentRoomIff(Now(), arena, os);
      mem := Zeroed(mem, seg, SEGMENT_SIZE);
      cells := Insert(cells, seg);
      segments := segments[arena := [seg] + if arena in segments then segments[arena] else []];
    }

    /** The arena's first unused page is put to use for the bin. */
    method PageOfArena(arena: nat, bin: nat) returns (start: Option<nat>)
      requires Ok() && bin < BIN_COUNT && ClassSize(bin) <= PAGE_SIZE / 2
      modifies `pages, `bins
      ensures Ok() && Same(old(Now()), Now())
      ensures start.None? <==> AllUsed(old(pages), SegmentList(old(Now()), arena))
      ensures start.None? ==> Now() == old(Now())
      ensures start.Some? ==>
        && Added(old(pages), pages, start.value, bin) && Listed(old(bins), bins, arena, bin, start.value)
        && FirstUnused(old(pages), SegmentList(old(Now()), arena), start.value)
    {
      var list := if arena in segments then segments[arena] else [];
      for j := 0 to |list|
        invariant Now() == old(Now()) && AllUsed(pages, list[..j])
      {
        var i := UnusedPage(list[j]);
        if i.Some? {
          assert !SegmentUsed(pages, list[j]);
          var st := InstallPage(arena, bin, list[j], i.value);
          return Some(st);
        }
      }
      assert list[..|list|] == list;
      return None;
    }

    /** The part of arena_alloc that finds or makes a fresh page. Without room for a segment it needs, the page
        lies where no pointer leads. */
    method NewPage(arena: nat, bin: nat, os: Os) returns (start: Option<nat>)
      requires Ok() && Honest(Now(), os) && bin < BIN_COUNT && ClassSize(bin) <= PAGE_SIZE / 2
      modifies `mem, `cells, `segments, `pages, `bins
      ensures var used := AllUsed(old(pages), SegmentList(old(Now()), arena));
              && (start.None? <==> used && os(SEGMENT_SIZE, SEGMENT_SIZE) == 0)
              && (Ok() <==> !(used && os(SEGMENT_SIZE, SEGMENT_SIZE) != 0 && !old(HasRoom())))
      ensures start.None? ==> Now() == old(Now())
      ensures start.Some? ==>
        && Added(old(pages), pages, start.value, bin) && Listed(old(bins), bins, arena, bin, start.value)
        && FreshChosen(old(Now()), arena, os, start.value) && ArenaAfter(old(Now()), Now(), arena, bin, os, start.value)
      ensures Ok() ==> Same(old(Now()), Now())
      ensures start.Some? && !Ok() ==>
        start.value != 0 && Orphaned(segments, cells, arena) && Astray(cells, large, start.value)
    {
      start := PageOfArena(arena, bin);
      if start.None? { start := PageOfSegment(arena, bin, os); }
    }

    /** The first page of a new segment is put to use for the bin. */
    method PageOfSegment(arena: nat, bin: nat, os: Os) returns (start: Option<nat>)
      requires Ok() && Honest(Now(), os) && bin < BIN_COUNT && ClassSize(bin) <= PAGE_SIZE / 2
      requires AllUsed(pages, SegmentList(Now(), arena))
      modifies `mem, `cells, `segments, `pages, `bins
      ensures start.None? <==> os(SEGMENT_SIZE, SEGMENT_SIZE) == 0
      ensures Ok() <==> os(SEGMENT_SIZE, SEGMENT_SIZE) == 0 || old(HasRoom())
      ensures start.None? ==> Now() == old(Now())
      ensures start.Some? ==>
        && Added(old(pages), pages, start.value, bin) && Listed(old(bins), bins, arena, bin, start.value)
        && start.value == PageStart(NewSeg(os), 1) && ArenaAfter(old(Now()), Now(), arena, bin, os, start.value)
      ensures Ok() ==> Same(old(Now()), Now())
      ensures start.Some? && !Ok() ==>
        start.value != 0 && Orphaned(segments, cells, arena) && Astray(cells, large, start.value)
    {
      var seg := NewSegment(arena, os);
      if seg == 0 { return None; }
      ghost var s := Now();
      var i := UnusedPage(seg);
      FirstOfSegment(pages, seg, i);
      var st := InstallPage(arena, bin, seg, i.value);
      SegmentPage(old(Now()), arena, bin, os);
      if old(HasRoom()) {
        SameSame(old(Now()), s, Now());
      } else {
        OrphanedIsBad(Now(), arena);
        assert Astray(cells, large, st);
      }
      return Some(st);
    }

    /** The fast path of slab_alloc_inner. */
    method FastPath(t: Tid, bin: nat) returns (ptr: nat, zeroed: bool)
      requires Ok() && (t, bin) in cache
      modifies `pages, `cache
      ensures Ok()
      ensures ptr == 0 <==> old(CacheSpent(Now(), t, bin))
      ensures ptr == 0 ==> Same(old(Now()), Now()) && Now() == Dropped(old(Now()), t, bin)
      ensures ptr == 0 ==> AlikePages(old(pages), pages)
      ensures ptr != 0 ==> Gains(old(Now()), Now(), ptr, SlotSize(ClassSize(bin)))
      ensures ptr != 0 ==> CacheServes(old(Now()), Now(), t, bin, ptr) && Settled(old(Now()), Now(), t, bin, ptr)
      ensures ptr != 0 && zeroed ==> Zeros(mem, ptr, SlotSize(ClassSize(bin)))
    {
      var start := cache[(t, bin)];
      ghost var s := Now();
      PageQuiet(s, start);
      var r := RunFast(pages[start].page, t);
      if r.Slot? {
        ptr, zeroed := SlotAddr(start, pages[start].size, r.slot), r.virgin;
        pages := pages[start := pages[start].(page := r.page)];
        FastSlot(s, Now(), t, bin, r, ptr);
      } else {
        ptr, zeroed := 0, false;
        pages := pages[start := pages[start].(page := r.page)];
        cache := cache - {(t, bin)};
        FastFull(s, Now(), t, bin, r);
      }
    }

    /** The test for a cached page, and the fast path. */
    method FromCache(t: Tid, bin: nat) returns (ptr: nat, zeroed: bool)
      requires Ok()
      modifies `pages, `cache
      ensures Ok()
      ensures ptr == 0 <==> old(CacheSpent(Now(), t, bin))
      ensures ptr == 0 ==> Same(old(Now()), Now()) && AlikePages(old(pages), pages)
      ensures ptr == 0 ==> Now() == Dropped(old(Now()), t, bin)
      ensures ptr != 0 ==> Gains(old(Now()), Now(), ptr, SlotSize(ClassSize(bin)))
      ensures ptr != 0 ==> CacheServes(old(Now()), Now(), t, bin, ptr) && Settled(old(Now()), Now(), t, bin, ptr)
      ensures ptr != 0 && zeroed ==> Zeros(mem, ptr, SlotSize(ClassSize(bin)))
    {
      if t != NO_TLD && (t, bin) in cache {
        ptr, zeroed := FastPath(t, bin);
      } else {
        return 0, false;
      }
    }

    /** arena_alloc, and the ownership claim that follows it. */
    method SlowPath(t: Tid, arena: nat, bin: nat, os: Os) returns (ptr: nat, ghost start: nat)
      requires Ok() && Honest(Now(), os) && bin < BIN_COUNT && ClassSize(bin) <= PAGE_SIZE / 2
      modifies `mem, `cells, `segments, `pages, `bins, `cache
      ensures Ok() <==> !old(ArenaLost(Now(), arena, bin, os))
      ensures ptr == 0 <==> old(ArenaDenies(Now(), Some(arena), bin, os))
      ensures ptr == 0 ==> Now() == old(Now())
      ensures ptr != 0 ==> SlowServes(old(Now()), Now(), t, arena, bin, os, ptr, start)
      ensures ptr != 0 && Ok() ==>
        && Gains(old(Now()), Now(), ptr, SlotSize(ClassSize(bin))) && Zeros(mem, ptr, SlotSize(ClassSize(bin)))
        && Settled(old(Now()), Now(), t, bin, ptr)
      ensures ptr != 0 && !Ok() ==> Foreign(Now(), ptr)
    {
      start := 0;
      var found := ScanBin(arena, bin);
      if found.Some? {
        PageQuiet(Now(), found.value);
        start := found.value;
        ptr := TakeUnowned(t, found.value, bin);
        FoundServes(old(Now()), Now(), t, arena, bin, os, ptr, start);
      } else {
        ptr, start := FromNewPage(t, arena, bin, os);
      }
    }

    /** The part of arena_alloc that follows the scan. */
    method FromNewPage(t: Tid, arena: nat, bin: nat, os: Os) returns (ptr: nat, ghost start: nat)
      requires Ok() && Honest(Now(), os) && bin < BIN_COUNT && ClassSize(bin) <= PAGE_SIZE / 2
      requires NoneUnowned(pages, BinList(Now(), arena, bin))
      modifies `mem, `cells, `segments, `pages, `bins, `cache
      ensures var used := AllUsed(old(pages), SegmentList(old(Now()), arena));
              && (ptr == 0 <==> used && os(SEGMENT_SIZE, SEGMENT_SIZE) == 0)
              && (Ok() <==> !(used && os(SEGMENT_SIZE, SEGMENT_SIZE) != 0 && !old(HasRoom())))
      ensures ptr == 0 ==> Now() == old(Now())
      ensures ptr != 0 ==> SlowServes(old(Now()), Now(), t, arena, bin, os, ptr, start)
      ensures ptr != 0 && Ok() ==>
        && Gains(old(Now()), Now(), ptr, SlotSize(ClassSize(bin))) && Zeros(mem, ptr, SlotSize(ClassSize(bin)))
        && Settled(old(Now()), Now(), t, bin, ptr)
      ensures ptr != 0 && !Ok() ==> Foreign(Now(), ptr)
    {
      var found := NewPage(arena, bin, os);
      if found.None? { return 0, 0; }
      ptr := TakeFresh(t, found.value, arena, bin, os, old(Now()));
      start := found.value;
    }

    /** The bump of the page that was made at state `s`. */
    method TakeFresh(t: Tid, start: nat, ghost arena: nat, ghost bin: nat, ghost os: Os, ghost s: State)
      returns (ptr: nat)
      requires tables.Filled() && PowerOfTwo(osPage) && MIN_ALIGN <= osPage <= SEGMENT_SIZE
      requires bin < BIN_COUNT && ClassSize(bin) <= PAGE_SIZE / 2
      requires NoneUnowned(s.pages, BinList(s, arena, bin)) && FreshChosen(s, arena, os, start)
      requires start !in s.pages && pages == s.pages[start := BlankSlab(bin)] && Unowned(pages[start].page)
      requires ArenaAfter(s, Now(), arena, bin, os, start) && cache == s.cache && large == s.large
      requires if Valid(Now()) then Same(s, Now())
               else start != 0 && Orphaned(segments, cells, arena) && Astray(cells, large, start)
      modifies `pages, `cache
      ensures ptr != 0 && SlowServes(s, Now(), t, arena, bin, os, ptr, start) && Settled(s, Now(), t, bin, ptr)
      ensures Ok() <==> old(Valid(Now()))
      ensures Ok() ==> Gains(s, Now(), ptr, SlotSize(ClassSize(bin))) && Zeros(mem, ptr, SlotSize(ClassSize(bin)))
      ensures !Ok() ==> Foreign(Now(), ptr)
    {
      ghost var s1 := Now();
      BlankSlabOk(bin);
      ptr := TakeUnowned(t, start, bin);
      FreshOutcome(s, s1, Now(), t, arena, bin, os, ptr, start);
    }

    /** The bump of an unowned page, and the claim by a caller with thread-local data. */
    method TakeUnowned(t: Tid, start: nat, ghost bin: nat) returns (ptr: nat)
      requires start in pages && Unowned(pages[start].page) && pages[start].bin == bin
      requires Quiet(pages[start].page) && pages[start].page.exited == {}
      modifies `pages, `cache
      ensures Bumps(old(Now()), Now(), t, bin, ptr, start)
      ensures pages[start].page.owner == if t == NO_TLD then None else Some(t)
      ensures t != NO_TLD ==> (t, bin) in cache && cache[(t, bin)] == start && t in pages[start].page.cached
      ensures t == NO_TLD ==> cache == old(cache)
      ensures old(Ok()) ==>
        var slot := SlotSize(ClassSize(bin));
        Ok() && ptr != 0 && Gains(old(Now()), Now(), ptr, slot) && Zeros(mem, ptr, slot)
    {
      ghost var s := Now();
      var slab := pages[start];
      ptr := SlotAddr(start, slab.size, slab.page.bump);
      var page := RunSlow(slab.page, t, t != NO_TLD);
      pages := pages[start := slab.(page := page)];
      if t != NO_TLD { cache := cache[(t, slab.bin) := start]; }
      BumpIs(s, Now(), t, bin, ptr, start, page);
      if Valid(s) { BumpOk(s, Now(), t, bin, ptr, start, page); }
    }

    /** slab_alloc_inner. The arena is the answer of arena_get. */
    method SlabAlloc(t: Tid, arena: Option<nat>, size: nat, os: Os) returns (ptr: nat, zeroed: bool)
      requires Ok() && Honest(Now(), os) && 0 < size <= MEDIUM_MAX
      modifies this
      ensures Ok() <==> !old(SlabLost(Now(), t, arena, size, os))
      ensures ptr == 0 <==> old(SlabDenies(Now(), t, arena, size, os, osPage))
      ensures ptr == 0 ==> Same(old(Now()), Now())
      ensures SlabServes(old(Now()), Now(), t, arena, size, os, osPage, ptr)
      ensures ptr != 0 && Ok() ==> SlabGains(old(Now()), Now(), t, ptr, size, os, osPage)
      ensures ptr != 0 && Ok() && zeroed ==> Zeros(mem, ptr, size)
      ensures !Ok() ==> ptr != 0 && zeroed && Foreign(Now(), ptr)
    {
      var bin := tables.SizeToBin(size);
      BinDecides(Now(), t, arena, bin, size, os, osPage);
      ptr, zeroed := BinAlloc(t, arena, bin, size, os);
    }

    /** The part of slab_alloc_inner that follows size_to_bin. */
    method BinAlloc(t: Tid, arena: Option<nat>, bin: nat, size: nat, os: Os) returns (ptr: nat, zeroed: bool)
      requires Ok() && Honest(Now(), os) && 0 < size <= MEDIUM_MAX && LeastFit(bin, size)
      modifies this
      ensures Ok() <==> !old(BinLost(Now(), t, arena, bin, os))
      ensures ptr == 0 <==> old(BinDenies(Now(), t, arena, bin, size, os, osPage))
      ensures ptr == 0 ==> Same(old(Now()), Now())
      ensures BinServes(old(Now()), Now(), t, arena, bin, size, os, osPage, ptr)
      ensures ptr != 0 && Ok() ==> BinGains(old(Now()), Now(), t, ptr, bin, size, os, osPage)
      ensures ptr != 0 && Ok() && zeroed ==> Zeros(mem, ptr, size)
      ensures !Ok() ==> ptr != 0 && zeroed && Foreign(Now(), ptr)
    {
      var slotSize := tables.BinToSize(bin);
      if slotSize > PAGE_SIZE / 2 {
        ptr := Fallback(t, bin, size, os);
        zeroed := false;
      } else {
        SlotSizeBounds(slotSize);
        ptr, zeroed := FromPages(t, arena, bin, os);
      }
    }

    /** The large allocation for a bin whose slots exceed half a page. */
    method Fallback(ghost t: Tid, bin: nat, size: nat, os: Os) returns (ptr: nat)
      requires Ok() && Honest(Now(), os) && 0 < size <= MEDIUM_MAX && LeastFit(bin, size)
      requires ClassSize(bin) > PAGE_SIZE / 2
      modifies `mem, `large
      ensures Ok()
      ensures ptr == 0 <==> Granted(os, size, MIN_ALIGN, osPage) == 0
      ensures ptr == 0 ==> Same(old(Now()), Now())
      ensures LargeServes(old(Now()), Now(), size, MIN_ALIGN, os, osPage, ptr)
      ensures ptr != 0 ==> BinGains(old(Now()), Now(), t, ptr, bin, size, os, osPage)
    {
      SegmentPower();
      NarrowFits(size, osPage);
      ptr := LargeAlloc(size, MIN_ALIGN, os);
    }

    /** The part of slab_alloc_inner for bins served from pages. */
    method FromPages(t: Tid, arena: Option<nat>, bin: nat, os: Os) returns (ptr: nat, zeroed: bool)
      requires Ok() && Honest(Now(), os) && bin < BIN_COUNT && ClassSize(bin) <= PAGE_SIZE / 2
      modifies this
      ensures Ok() <==> !(arena.Some? && old(CacheSpent(Now(), t, bin)) && old(ArenaLost(Now(), arena.value, bin, os)))
      ensures ptr == 0 <==> old(CacheSpent(Now(), t, bin)) && old(ArenaDenies(Now(), arena, bin, os))
      ensures ptr == 0 ==> Same(old(Now()), Now())
      ensures PagesServe(old(Now()), Now(), t, arena, bin, os, ptr)
      ensures ptr != 0 && Ok() ==> Gains(old(Now()), Now(), ptr, SlotSize(ClassSize(bin)))
      ensures ptr != 0 && Ok() ==> Settled(old(Now()), Now(), t, bin, ptr)
      ensures ptr != 0 && Ok() && zeroed ==> Zeros(mem, ptr, SlotSize(ClassSize(bin)))
      ensures !Ok() ==> ptr != 0 && zeroed && Foreign(Now(), ptr)
    {
      ghost var s := Now();
      ptr, zeroed := FromCache(t, bin);
      if ptr != 0 { return; }
      if arena.None? { return 0, false; }
      HonestSame(s, Now(), os);
      AlikeArena(s, Now(), arena.value, bin, os);
      ptr := FromArena(t, arena.value, bin, os, s);
      zeroed := true;
    }

    /** The slow path, once the cached page was found spent and dropped at state `s`. */
    method FromArena(t: Tid, arena: nat, bin: nat, os: Os, ghost s: State) returns (ptr: nat)
      requires Ok() && Honest(Now(), os) && bin < BIN_COUNT && ClassSize(bin) <= PAGE_SIZE / 2
      requires CacheSpent(s, t, bin) && Now() == Dropped(s, t, bin) && Same(s, Now())
      modifies `mem, `cells, `segments, `pages, `bins, `cache
      ensures Ok() <==> !old(ArenaLost(Now(), arena, bin, os))
      ensures ptr == 0 <==> old(ArenaDenies(Now(), Some(arena), bin, os))
      ensures PagesServe(s, Now(), t, Some(arena), bin, os, ptr)
      ensures ptr == 0 ==> Same(s, Now())
      ensures ptr != 0 && Ok() ==>
        && Gains(s, Now(), ptr, SlotSize(ClassSize(bin))) && Zeros(mem, ptr, SlotSize(ClassSize(bin)))
        && Settled(s, Now(), t, bin, ptr)
      ensures !Ok() ==> ptr != 0 && Foreign(Now(), ptr)
    {
      ghost var s1 := Now();
      ghost var start;
      ptr, start := SlowPath(t, arena, bin, os);
      if ptr != 0 && Valid(Now()) {
        SameGains(s, s1, Now(), ptr, SlotSize(ClassSize(bin)));
        DroppedSettles(s, Now(), t, bin, ptr);
      }
    }

    // ---- the public interface ----

    /** my_malloc. */
    method Malloc(t: Tid, arena: Option<nat>, size: nat, os: Os) returns (ptr: nat)
      requires Ok() && Honest(Now(), os) && size < WORD
      modifies this
      ensures Ok() <==> !old(Lost(Now(), t, arena, size, os, osPage))
      ensures ptr == 0 <==> old(Denied(Now(), t, arena, size, os, osPage))
      ensures ptr == 0 ==> Same(old(Now()), Now())
      ensures Serves(old(Now()), Now(), t, arena, size, os, osPage, ptr)
      ensures ptr != 0 && Ok() ==> GainsBlock(old(Now()), Now(), ptr, size)
      ensures !Ok() ==> Strays(Now(), ptr, size)
    {
      if size > MEDIUM_MAX { ptr := MallocLarge(size, os); } else { ptr := MallocSlab(t, arena, size, os); }
    }

    /** The large way of my_malloc. */
    method MallocLarge(size: nat, os: Os) returns (ptr: nat)
      requires Ok() && Honest(Now(), os) && MEDIUM_MAX < size < WORD
      modifies `mem, `large
      ensures Ok() <==> !LargeLost(size, MIN_ALIGN, os, osPage)
      ensures ptr == 0 <==> Granted(os, size, MIN_ALIGN, osPage) == 0
      ensures ptr == 0 ==> Same(old(Now()), Now())
      ensures LargeServes(old(Now()), Now(), size, MIN_ALIGN, os, osPage, ptr)
      ensures ptr != 0 && Ok() ==> GainsBlock(old(Now()), Now(), ptr, size) && Zeros(mem, ptr, size)
      ensures !Ok() ==> Strays(Now(), ptr, size)
    {
      SegmentPower();
      ptr := LargeAlloc(size, MIN_ALIGN, os);
      assert BlockSize(size, size);
    }

    /** The slab way of my_malloc. */
    method MallocSlab(t: Tid, arena: Option<nat>, size: nat, os: Os) returns (ptr: nat)
      requires Ok() && Honest(Now(), os) && size <= MEDIUM_MAX
      modifies this
      ensures Ok() <==> !old(SlabLost(Now(), t, arena, Bytes(size), os))
      ensures ptr == 0 <==> old(SlabDenies(Now(), t, arena, Bytes(size), os, osPage))
      ensures ptr == 0 ==> Same(old(Now()), Now())
      ensures SlabServes(old(Now()), Now(), t, arena, Bytes(size), os, osPage, ptr)
      ensures ptr != 0 && Ok() ==> GainsBlock(old(Now()), Now(), ptr, size)
      ensures !Ok() ==> Strays(Now(), ptr, size)
    {
      ghost var s := Now();
      var asked, zeroed := Bytes(size), false;
      ptr, zeroed := SlabAlloc(t, arena, asked, os);
      if ptr != 0 && Ok() { AskedGains(s, Now(), t, ptr, size, asked, os, osPage); }
    }

    /** my_calloc. The allocator's state but for memory is that of malloc. */
    method Calloc(t: Tid, arena: Option<nat>, count: nat, size: nat, os: Os) returns (ptr: nat, ghost s1: State)
      requires Ok() && Honest(Now(), os)
      modifies this
      ensures count * size >= WORD ==> ptr == 0 && Now() == old(Now())
      ensures count * size < WORD ==>
        && (Ok() <==> !old(Lost(Now(), t, arena, count * size, os, osPage)))
        && (ptr == 0 <==> old(Denied(Now(), t, arena, count * size, os, osPage)))
        && Serves(old(Now()), s1, t, arena, count * size, os, osPage, ptr) && Now() == s1.(mem := mem)
      ensures ptr == 0 ==> Same(old(Now()), Now())
      ensures ptr != 0 && Ok() ==> GainsBlock(old(Now()), Now(), ptr, count * size) && Zeros(mem, ptr, count * size)
      ensures !Ok() ==> Strays(Now(), ptr, count * size)
    {
      s1 := Now();
      if count * size >= WORD { return 0, s1; }
      ptr, s1 := Zeroes(t, arena, count * size, os);
    }

    /** my_calloc, once the product is known. */
    method Zeroes(t: Tid, arena: Option<nat>, size: nat, os: Os) returns (ptr: nat, ghost s1: State)
      requires Ok() && Honest(Now(), os) && size < WORD
      modifies this
      ensures Ok() <==> !old(Lost(Now(), t, arena, size, os, osPage))
      ensures ptr == 0 <==> old(Denied(Now(), t, arena, size, os, osPage))
      ensures Serves(old(Now()), s1, t, arena, size, os, osPage, ptr) && Now() == s1.(mem := mem)
      ensures ptr == 0 ==> Same(old(Now()), Now())
      ensures ptr != 0 && Ok() ==> GainsBlock(old(Now()), Now(), ptr, size) && Zeros(mem, ptr, size)
      ensures !Ok() ==> Strays(Now(), ptr, size)
    {
      if size > MEDIUM_MAX {
        ptr := MallocLarge(size, os);
        s1 := Now();
      } else {
        ptr, s1 := Cleared(t, arena, size, os);
      }
    }

    /** The slab way of my_calloc. */
    method Cleared(t: Tid, arena: Option<nat>, size: nat, os: Os) returns (ptr: nat, ghost s1: State)
      requires Ok() && Honest(Now(), os) && size <= MEDIUM_MAX
      modifies this
      ensures Ok() <==> !old(SlabLost(Now(), t, arena, Bytes(size), os))
      ensures ptr == 0 <==> old(SlabDenies(Now(), t, arena, Bytes(size), os, osPage))
      ensures SlabServes(old(Now()), s1, t, arena, Bytes(size), os, osPage, ptr) && Now() == s1.(mem := mem)
      ensures ptr == 0 ==> Same(old(Now()), Now())
      ensures ptr != 0 && Ok() ==> GainsBlock(old(Now()), Now(), ptr, size) && Zeros(mem, ptr, size)
      ensures !Ok() ==> Strays(Now(), ptr, size)
    {
      ghost var s := Now();
      var total, zeroed := Bytes(size), false;
      ptr, zeroed := SlabAlloc(t, arena, total, os);
      s1 := Now();
      if ptr == 0 { return; }
      if !zeroed { mem := Zeroed(mem, ptr, total); }
      if Valid(s1) { ClearedGains(s, s1, Now(), t, ptr, size, total, os, osPage); }
    }

    /** my_memalign. */
    method Memalign(t: Tid, arena: Option<nat>, alignment: nat, size: nat, os: Os) returns (ptr: nat)
      requires Ok() && Honest(Now(), os) && alignment < WORD && size < WORD
      modifies this
      ensures !PowerOfTwo(alignment) ==> ptr == 0 && Now() == old(Now())
      ensures Ok() <==> !old(MemalignLost(Now(), t, arena, alignment, size, os, osPage))
      ensures ptr == 0 <==> old(MemalignDenied(Now(), t, arena, alignment, size, os, osPage))
      ensures ptr == 0 ==> Same(old(Now()), Now())
      ensures PowerOfTwo(alignment) ==> MemalignServes(old(Now()), Now(), t, arena, alignment, size, os, osPage, ptr)
      ensures ptr != 0 && Ok() ==>
        MemalignGains(old(Now()), Now(), alignment, size, ptr) && Placed(alignment, size, ptr, osPage)
      ensures !Ok() ==> Strays(Now(), ptr, size)
    {
      if alignment > 0 { PowerTest(alignment); }
      L.MemalignRoutes(alignment, size);
      match L.Memalign(alignment, size)
      case Invalid =>
        ptr := 0;
      case Plain =>
        ptr := Malloc(t, arena, size, os);
        if ptr != 0 && Ok() { PlainPlaced(old(Now()), Now(), alignment, size, ptr, osPage); }
      case Aligned =>
        ptr := LargeAlloc(size, alignment, os);
      case Slab(rounded) =>
        ghost var s := Now();
        var zeroed;
        ptr, zeroed := SlabAlloc(t, arena, rounded, os);
        if ptr != 0 && Ok() {
          SlabGainsBlock(s, Now(), t, ptr, rounded, os, osPage);
          SlabPlaced(s, Now(), t, alignment, size, rounded, ptr, os, osPage);
        }
    }

    /** my_free, on null, on a live block, or on a pointer into no mapping or into an unused page. */
    method Free(t: Tid, ptr: nat)
      requires Ok() && (ptr == 0 || !NoBlock(Now(), ptr) || Foreign(Now(), ptr) || Unused(Now(), ptr))
      modifies this
      ensures Ok() && Takes(old(Now()), Now(), t, ptr)
      ensures ptr == 0 || old(Foreign(Now(), ptr) || Unused(Now(), ptr)) ==> Now() == old(Now())
      ensures ptr != 0 && old(!NoBlock(Now(), ptr)) ==> Loses(old(Now()), Now(), ptr)
      ensures cells == old(cells) && cache == old(cache) && bins == old(bins) && segments == old(segments)
    {
      if ptr == 0 { return; }
      if n: nat :| IsBlock(Now(), ptr, n) { BlockOrigin(Now(), ptr, n); }
      var seg := PtrToSegment(cells, ptr);
      if seg == 0 {
        LargeFree(ptr);
      } else if PtrToPage(seg, ptr) in pages {
        SlabFree(t, ptr, seg);
      }
    }

    /** slab_free, once the segment is known. */
    method SlabFree(t: Tid, ptr: nat, seg: nat)
      requires Ok() && seg <= ptr && LiveAt(Now(), PtrToPage(seg, ptr), ptr)
      modifies `pages, `mem
      ensures Ok() && Loses(old(Now()), Now(), ptr)
      ensures TakesSlot(old(Now()), Now(), t, PtrToPage(seg, ptr), ptr)
    {
      var start := PtrToPage(seg, ptr);
      ghost var s := Now();
      PageQuiet(s, start);
      var slab := pages[start];
      var k := (ptr - start) / slab.size;
      var page := RunFree(slab.page, t, k);
      mem := WithLink(mem, ptr, page.link[k]);
      pages := pages[start := slab.(page := page)];
      SlotTaken(s, Now(), t, start, ptr, k, page);
    }

    /** large_free: the first mapping that holds the pointer is unlinked and unmapped, if there is one. */
    method LargeFree(ptr: nat)
      requires Ok() && (NoCover(large, ptr) || exists i: nat, n: nat :: LargeBlock(Now(), i, ptr, n))
      modifies `large
      ensures Ok() && TakesMapping(old(Now()), Now(), ptr)
      ensures NoCover(old(large), ptr) ==> large == old(large)
      ensures !NoCover(old(large), ptr) ==> Loses(old(Now()), Now(), ptr)
    {
      var found := LargeFind(ptr);
      if found.None? { return; }
      var i := found.value;
      DropLarge(Now(), Now().(large := large[..i] + large[i + 1..]), i);
      large := large[..i] + large[i + 1..];
    }

    /** large_find: the first mapping that holds the pointer; for a block, its own. */
    method LargeFind(ptr: nat) returns (i: Option<nat>)
      requires Ok()
      ensures if i.None? then NoCover(large, ptr) else i.value < |large| && Covers(large[i.value], ptr)
      ensures forall w: nat, n: nat | LargeBlock(Now(), w, ptr, n) :: i == Some(w)
    {
      i := None;
      for j := 0 to |large|
        invariant NoCover(large[..j], ptr)
      {
        if Covers(large[j], ptr) {
          i := Some(j);
          break;
        }
      }
      forall w: nat, n: nat | LargeBlock(Now(), w, ptr, n) ensures i == Some(w) { OwnMapping(Now(), w, ptr, n); }
    }

    /** Free and malloc again: a thread that frees a slot of its cached page gets the same slot back for any size of
        the same bin. */
    method FreeThenMalloc(t: Tid, arena: Option<nat>, ptr: nat, size: nat, os: Os) returns (again: nat)
      requires Ok() && Honest(Now(), os) && t != NO_TLD && PtrToSegment(cells, ptr) != 0 && !NoBlock(Now(), ptr)
      requires PtrToSegment(cells, ptr) <= ptr
      requires var start := PtrToPage(PtrToSegment(cells, ptr), ptr);
               && start in pages && (t, pages[start].bin) in cache && cache[(t, pages[start].bin)] == start
               && 0 < size <= MEDIUM_MAX && LeastFit(pages[start].bin, size)
      modifies this
      ensures Ok() && again == ptr
    {
      ghost var s, bin := Now(), pages[PtrToPage(PtrToSegment(cells, ptr), ptr)].bin;
      NotNull(s, ptr);
      Free(t, ptr);
      FreedIsFirst(s, Now(), t, ptr, bin);
      HonestSame(s, Now(), os);
      again := MallocFirst(t, arena, bin, ptr, size, os);
    }

    /** An allocation for which the caller's page has a slot on its local list. */
    method MallocFirst(t: Tid, arena: Option<nat>, ghost bin: nat, ghost ptr: nat, size: nat, os: Os)
      returns (again: nat)
      requires Ok() && Honest(Now(), os) && 0 < size <= MEDIUM_MAX && LeastFit(bin, size)
      requires NextOut(Now(), t, bin, ptr) && ClassSize(bin) <= PAGE_SIZE / 2
      modifies this
      ensures Ok() && again == ptr
    {
      ghost var s := Now();
      FirstNotLost(s, t, arena, bin, ptr, size, os, osPage);
      again := Malloc(t, arena, size, os);
      FirstComesBack(s, Now(), t, arena, bin, ptr, size, os, osPage, again);
    }

    /** Allocate, copy up to the lesser size, and free the old block; `s1` is the state after the allocation. */
    method Move(t: Tid, arena: Option<nat>, ptr: nat, n: nat, size: nat, os: Os)
      returns (r: nat, ghost s1: State, ghost m: nat)
      requires Ok() && Honest(Now(), os) && size < WORD && ptr != 0 && IsBlock(Now(), ptr, n)
      requires !Lost(Now(), t, arena, size, os, osPage)
      modifies this
      ensures Ok()
      ensures r == 0 <==> old(Denied(Now(), t, arena, size, os, osPage))
      ensures Serves(old(Now()), s1, t, arena, size, os, osPage, r)
      ensures r == 0 ==> Now() == s1 && Same(old(Now()), Now())
      ensures r != 0 ==>
        && r != ptr && BlockSize(size, m) && Reallocated(old(Now()), Now(), ptr, n, r, size, m)
        && Takes(s1.(mem := Copied(s1.mem, r, ptr, Lesser(n, size))), Now(), t, ptr)
    {
      ghost var s := Now();
      r := Malloc(t, arena, size, os);
      s1, m := Now(), 0;
      if r == 0 { return; }
      m :| BlockSize(size, m) && Gains(s, s1, r, m);
      BlockHolds(size, m);
      Carry(t, ptr, n, r, m, size, s);
    }

    /** Copy to the new block at `r`, of `m` bytes, and free the old one; `s` is the state before the allocation. */
    method Carry(t: Tid, ptr: nat, n: nat, r: nat, ghost m: nat, size: nat, ghost s: State)
      requires Ok() && ptr != 0 && IsBlock(s, ptr, n) && Gains(s, Now(), r, m) && size <= m
      modifies this
      ensures Ok() && Reallocated(s, Now(), ptr, n, r, size, m)
      ensures Takes(old(Now()).(mem := Copied(old(mem), r, ptr, Lesser(n, size))), Now(), t, ptr)
    {
      ghost var s1 := Now();
      mem := Copied(mem, r, ptr, Lesser(n, size));
      ghost var s2 := Now();
      CopyStep(s, s1, s2, ptr, n, r, m, size);
      assert IsBlock(s2, ptr, n);
      Free(t, ptr);
      FreeStep(s, s1, s2, Now(), ptr, n, r, m, size);
    }

    /** my_realloc, on null, on a live block of `n` bytes, or on a pointer into no mapping. Unless the block stays
        where it is, the call must not be one that malloc does not survive. */
    method Realloc(t: Tid, arena: Option<nat>, ptr: nat, ghost n: nat, size: nat, os: Os) returns (r: nat, ghost m: nat)
      requires Ok() && Honest(Now(), os) && size < WORD
      requires ptr == 0 || IsBlock(Now(), ptr, n) || Foreign(Now(), ptr)
      requires ptr == 0 || size == 0 || Stays(Now(), ptr, size) || !Lost(Now(), t, arena, size, os, osPage)
      modifies this
      ensures ptr == 0 ==>
        && (Ok() <==> !old(Lost(Now(), t, arena, size, os, osPage)))
        && (r == 0 <==> old(Denied(Now(), t, arena, size, os, osPage)))
        && Serves(old(Now()), Now(), t, arena, size, os, osPage, r)
        && (r == 0 ==> Same(old(Now()), Now()))
        && (r != 0 && Ok() ==> GainsBlock(old(Now()), Now(), r, size))
      ensures ptr != 0 ==> Ok()
      ensures ptr != 0 && old(Foreign(Now(), ptr)) ==> r == 0 && Now() == old(Now())
      ensures ptr != 0 && old(IsBlock(Now(), ptr, n)) && size == 0 ==>
        r == 0 && Loses(old(Now()), Now(), ptr) && Takes(old(Now()), Now(), t, ptr)
      ensures ptr != 0 && old(IsBlock(Now(), ptr, n)) && size > 0 ==>
        && (r == 0 <==> !old(Stays(Now(), ptr, size)) && old(Denied(Now(), t, arena, size, os, osPage)))
        && (r == ptr <==> old(Stays(Now(), ptr, size)))
        && if r == 0 then Same(old(Now()), Now()) else Reallocated(old(Now()), Now(), ptr, n, r, size, m)
      ensures ptr != 0 && old(IsBlock(Now(), ptr, n)) && size > 0 && r == ptr ==>
        m == if PtrToSegment(cells, ptr) == 0 then size else n
      ensures ptr != 0 && old(IsBlock(Now(), ptr, n)) && size > 0 && r != 0 && r != ptr ==> BlockSize(size, m)
    {
      m := 0;
      if ptr == 0 {
        r := Malloc(t, arena, size, os);
        return;
      }
      if size == 0 {
        Free(t, ptr);
        return 0, 0;
      }
      if IsBlock(Now(), ptr, n) { BlockOrigin(Now(), ptr, n); }
      var seg := PtrToSegment(cells, ptr);
      if seg != 0 { r, m := ReallocSlab(t, arena, ptr, PtrToPage(seg, ptr), size, os); }
      else { r, m := ReallocLarge(t, arena, ptr, n, size, os); }
    }

    /** The part of my_realloc for a slot of the page at `start`. */
    method ReallocSlab(t: Tid, arena: Option<nat>, ptr: nat, start: nat, size: nat, os: Os)
      returns (r: nat, ghost m: nat)
      requires Ok() && Honest(Now(), os) && ptr != 0 && 0 < size < WORD
      requires start in pages && IsBlock(Now(), ptr, pages[start].size)
      requires StaysSlot(pages[start], size) || !Lost(Now(), t, arena, size, os, osPage)
      modifies this
      ensures Ok()
      ensures r == 0 <==> !old(StaysSlot(pages[start], size)) && old(Denied(Now(), t, arena, size, os, osPage))
      ensures r == ptr <==> old(StaysSlot(pages[start], size))
      ensures r == ptr ==> Now() == old(Now()) && m == pages[start].size
      ensures r != 0 && r != ptr ==> BlockSize(size, m)
      ensures if r == 0 then Same(old(Now()), Now())
              else Reallocated(old(Now()), Now(), ptr, old(pages[start].size), r, size, m)
    {
      var slab := pages[start];
      if size <= slab.size {
        InPlace(Now(), ptr, slab.size, size);
        SlotBelow(Now(), start);
        var bin := tables.SizeToBin(size);
        if LeastFit(slab.bin, size) { OneBin(slab.bin, bin, size); }
        if bin == slab.bin { return ptr, slab.size; }
      }
      ghost var s1;
      r, s1, m := Move(t, arena, ptr, slab.size, size, os);
    }

    /** The part of my_realloc for a large block, or for a pointer no mapping holds. */
    method ReallocLarge(t: Tid, arena: Option<nat>, ptr: nat, ghost n: nat, size: nat, os: Os)
      returns (r: nat, ghost m: nat)
      requires Ok() && Honest(Now(), os) && ptr != 0 && 0 < size < WORD
      requires NoCover(large, ptr) || exists i: nat :: LargeBlock(Now(), i, ptr, n)
      requires NoCover(large, ptr) || StaysMapped(large, ptr, size) || !Lost(Now(), t, arena, size, os, osPage)
      modifies this
      ensures Ok()
      ensures NoCover(old(large), ptr) ==> r == 0 && Now() == old(Now())
      ensures !NoCover(old(large), ptr) ==>
        && (r == 0 <==> !StaysMapped(old(large), ptr, size) && old(Denied(Now(), t, arena, size, os, osPage)))
        && (r == ptr <==> StaysMapped(old(large), ptr, size))
        && (r == ptr ==> m == size && IsBlock(Now(), ptr, size) && Now() == old(Now()).(large := large))
        && (r != 0 && r != ptr ==> BlockSize(size, m))
        && if r == 0 then Same(old(Now()), Now()) else Reallocated(old(Now()), Now(), ptr, n, r, size, m)
    {
      m := 0;
      var found := LargeFind(ptr);
      if found.None? { return 0, 0; }
      var i := found.value;
      OwnMapping(Now(), i, ptr, n);
      if size <= large[i].size - (ptr - large[i].base) {
        ghost var s := Now();
        large := large[i := large[i].(userSize := size)];
        Resize(s, Now(), i, size);
        return ptr, size;
      }
      ghost var s1;
      r, s1, m := Move(t, arena, ptr, large[i].userSize, size, os);
    }

    /** my_malloc_usable_size, on any pointer. */
    method UsableSize(ptr: nat) returns (n: nat)
      requires Ok()
      ensures ptr == 0 || Foreign(Now(), ptr) || Unused(Now(), ptr) ==> n == 0
      ensures ptr != 0 ==> forall m: nat | IsBlock(Now(), ptr, m) :: n == m
      ensures ptr != 0 && PtrToSegment(cells, ptr) == 0 ==>
        forall i | 0 <= i < |large| && Covers(large[i], ptr) :: n == large[i].userSize
      ensures ptr != 0 && PtrToSegment(cells, ptr) != 0 ==>
        && PtrToSegment(cells, ptr) <= ptr
        && var start := PtrToPage(PtrToSegment(cells, ptr), ptr);
        n == if start in pages then pages[start].size else 0
    {
      if ptr == 0 { return 0; }
      forall m: nat | IsBlock(Now(), ptr, m)
        ensures BlockLeads(Now(), ptr, m)
      {
        BlockOrigin(Now(), ptr, m);
      }
      var seg := PtrToSegment(cells, ptr);
      if seg != 0 {
        SegmentBaseIs(ptr);
        var start := PtrToPage(seg, ptr);
        return if start in pages then pages[start].size else 0;
      }
      var i := LargeFind(ptr);
      if i.None? { return 0; }
      forall j | 0 <= j < |large| && Covers(large[j], ptr) ensures j == i.value {
        if j != i.value { LargeDisjoint(Now(), j, i.value); }
      }
      return large[i.value].userSize;
    }

    /** A client writes a byte of one of its blocks. */
    method Write(ptr: nat, ghost n: nat, i: nat, value: bv8)
      requires Ok() && IsBlock(Now(), ptr, n) && i < n
      modifies `mem
      ensures Ok() && Intact(old(Now()), Now(), ptr)
      ensures mem(ptr + i) == Raw(value) && forall x: nat | x != ptr + i :: mem(x) == old(mem)(x)
      ensures forall q: nat, m: nat :: IsBlock(Now(), q, m) <==> old(IsBlock(Now(), q, m))
    {
      ghost var s := Now();
      var m := mem;
      mem := (x: nat) => if x == ptr + i then Raw(value) else m(x);
      Overwrite(s, Now(), ptr, n);
    }
  }
}
