/** Addresses: segments, the pages inside them, and the slots inside pages. */
module Geometry {
  import opened Basics
  import opened Bits
  import opened Registry

  const PAGE_SIZE := 0x1_0000
  const PAGES_PER_SEGMENT := 64
  const MIN_ALIGN := 16
  /** The record at the start of a large mapping, rounded up to 16 bytes. */
  const LARGE_HEADER := 48

  /** The segment an address would belong to: addr & SEGMENT_MASK. */
  function SegmentBase(addr: nat): nat { AndNot(addr, SEGMENT_SIZE - 1) }

  /** The number of the page at `addr` in the segment at `base`. */
  function PageIndex(base: nat, addr: nat): nat
    requires base <= addr
  {
    (addr - base) / PAGE_SIZE
  }

  function PageStart(base: nat, i: nat): nat { base + i * PAGE_SIZE }

  /** The slot size that page_init gives a class, and the number of slots. */
  function SlotSize(size: nat): nat { AlignUp(if size < MIN_ALIGN then MIN_ALIGN else size, MIN_ALIGN) }

  function Capacity(size: nat): nat
    requires size > 0
  {
    PAGE_SIZE / size
  }

  function SlotAddr(start: nat, size: nat, k: nat): nat { start + k * size }

  lemma SegmentPower()
    ensures PowerOfTwo(SEGMENT_SIZE) && PowerOfTwo(PAGE_SIZE) && PowerOfTwo(MIN_ALIGN)
  {
    Power(4);
    Power(16);
    Power(22);
  }

  lemma SegmentBaseIs(addr: nat)
    ensures SegmentBase(addr) == addr - addr % SEGMENT_SIZE
  {
    SegmentPower();
    MaskFloors(addr, SEGMENT_SIZE);
  }

  lemma Rounded16(x: nat)
    ensures x <= AlignUp(x, MIN_ALIGN) < x + MIN_ALIGN && AlignUp(x, MIN_ALIGN) % MIN_ALIGN == 0
  {
    SegmentPower();
    AlignUpLeast(x, MIN_ALIGN);
  }

  lemma SlotSizeBounds(size: nat)
    ensures size <= SlotSize(size) && MIN_ALIGN <= SlotSize(size) && SlotSize(size) % MIN_ALIGN == 0
    ensures SlotSize(size) < size + MIN_ALIGN || SlotSize(size) == MIN_ALIGN
    ensures size <= PAGE_SIZE / 2 ==> SlotSize(size) <= PAGE_SIZE / 2
  {
    Rounded16(if size < MIN_ALIGN then MIN_ALIGN else size);
  }

  lemma CapacityFits(size: nat)
    requires MIN_ALIGN <= size <= PAGE_SIZE / 2
    ensures 2 <= Capacity(size) <= 4096 && Capacity(size) * size <= PAGE_SIZE
  {
    var c := Capacity(size);
    assert PAGE_SIZE == c * size + PAGE_SIZE % size;
    assert c < 2 ==> c * size <= size;
    if c > 4096 { MulGap(4096, c, size); }
  }

  /** A page has at least 2 and at most 4096 slots: as many as fit. */
  lemma CapacityBounds(size: nat)
    requires MIN_ALIGN <= size <= PAGE_SIZE / 2
    ensures 2 <= Capacity(size) <= 4096 && Capacity(size) * size <= PAGE_SIZE < (Capacity(size) + 1) * size
  {
    CapacityFits(size);
    var c := Capacity(size);
    assert PAGE_SIZE == c * size + PAGE_SIZE % size;
    assert (c + 1) * size == c * size + size;
  }

  /** A slot lies inside its page. */
  lemma SlotInPage(start: nat, size: nat, k: nat)
    requires MIN_ALIGN <= size <= PAGE_SIZE / 2 && k < Capacity(size)
    ensures start <= SlotAddr(start, size, k) && SlotAddr(start, size, k) + size <= start + PAGE_SIZE
  {
    CapacityFits(size);
    MulGap(k, Capacity(size), size);
  }

  /** Slots of one page do not overlap. */
  lemma SlotsApart(start: nat, size: nat, j: nat, k: nat)
    requires j < k
    ensures SlotAddr(start, size, j) + size <= SlotAddr(start, size, k)
  {
    MulGap(j, k, size);
  }

  /** Two different pages do not overlap. */
  lemma PagesApart(s: nat, t: nat)
    requires s % PAGE_SIZE == 0 && t % PAGE_SIZE == 0 && s < t
    ensures s + PAGE_SIZE <= t
  {
  }

  lemma SegmentsApart(a: nat, b: nat)
    requires a % SEGMENT_SIZE == 0 && b % SEGMENT_SIZE == 0 && a < b
    ensures a + SEGMENT_SIZE <= b
  {
  }

  /** Where a page lies in its segment. */
  lemma PageInSegment(start: nat) returns (i: nat)
    requires start % PAGE_SIZE == 0
    ensures SegmentBase(start) <= start && SegmentBase(start) % SEGMENT_SIZE == 0
    ensures i < PAGES_PER_SEGMENT && PageStart(SegmentBase(start), i) == start
  {
    var p := start / PAGE_SIZE;
    var q := p / PAGES_PER_SEGMENT;
    i := p % PAGES_PER_SEGMENT;
    assert start == q * SEGMENT_SIZE + i * PAGE_SIZE;
    Residue(start, q, i * PAGE_SIZE, SEGMENT_SIZE);
    SegmentBaseIs(start);
    Residue(q * SEGMENT_SIZE, q, 0, SEGMENT_SIZE);
  }

  /** Any address in a page leads back to its segment, its page and its slot. */
  lemma AddressRoundTrip(base: nat, i: nat, size: nat, k: nat, offset: nat)
    requires base % SEGMENT_SIZE == 0 && i < PAGES_PER_SEGMENT
    requires MIN_ALIGN <= size <= PAGE_SIZE / 2 && k < Capacity(size) && offset < size
    ensures var addr := SlotAddr(PageStart(base, i), size, k) + offset;
            && SegmentBase(addr) == base
            && PageIndex(base, addr) == i
            && (addr - PageStart(base, i)) / size == k
            && (addr - PageStart(base, i)) % size == offset
  {
    var start := PageStart(base, i);
    var addr := SlotAddr(start, size, k) + offset;
    SlotInPage(start, size, k);
    SegmentBaseIs(addr);
    PageBack(base, i, addr - start);
    Residue(addr - start, k, offset, size);
  }

  lemma PageMultiple(base: nat, i: nat)
    requires base % SEGMENT_SIZE == 0
    ensures PageStart(base, i) % PAGE_SIZE == 0
  {
  }

  lemma PageBack(base: nat, i: nat, inside: nat)
    requires base % SEGMENT_SIZE == 0 && i < PAGES_PER_SEGMENT && inside < PAGE_SIZE
    ensures SegmentBase(PageStart(base, i) + inside) == base
    ensures PageIndex(base, PageStart(base, i) + inside) == i
  {
    SegmentBaseIs(PageStart(base, i) + inside);
  }

  /** Slots of a page that starts at a multiple of 64 KB are 16-byte aligned. */
  lemma SlotAligned(start: nat, size: nat, k: nat, a: nat)
    requires a > 0 && start % a == 0 && size % a == 0
    ensures SlotAddr(start, size, k) % a == 0
  {
    MultipleOf(size, k, a);
    Multiples(start, k * size, a);
  }

  lemma MultipleOf(size: nat, k: nat, a: nat)
    requires a > 0 && size % a == 0
    ensures (k * size) % a == 0
  {
    var q := size / a;
    assert size == q * a;
    assert k * size == (k * q) * a by { assert k * (q * a) == (k * q) * a; }
    Residue(k * size, k * q, 0, a);
  }

  /** All slots of a page are aligned to a power of two exactly when the slot size is a multiple of it. */
  lemma AllSlotsAligned(start: nat, size: nat, a: nat)
    requires PowerOfTwo(a) && a <= PAGE_SIZE && start % PAGE_SIZE == 0 && MIN_ALIGN <= size <= PAGE_SIZE / 2
    ensures (forall k: nat | k < Capacity(size) :: SlotAddr(start, size, k) % a == 0) <==> size % a == 0
  {
    SegmentPower();
    PowersDivide(a, PAGE_SIZE);
    MultipleOfMultiple(start, PAGE_SIZE, a);
    CapacityFits(size);
    if size % a == 0 {
      forall k: nat | k < Capacity(size) ensures SlotAddr(start, size, k) % a == 0 { SlotAligned(start, size, k, a); }
    } else {
      assert SlotAddr(start, size, 1) == start + size;
      NotMultiple(start, size, a);
    }
  }

  lemma NotMultiple(x: nat, y: nat, a: nat)
    requires a > 0 && x % a == 0 && y % a != 0
    ensures (x + y) % a != 0
  {
    var p, q := x / a, y / a;
    assert x + y == (p + q) * a + y % a by { assert (p + q) * a == p * a + q * a; }
    Residue(x + y, p + q, y % a, a);
  }
}
