/** Large allocations: where the block lies in its mapping, and the doubly linked list of them. */
module Large {
  import opened Basics
  import opened Bits
  import opened Geometry
  import opened SizeClass
  import opened FlatBound
  import opened LargeList

  // ---- the layout of one mapping ----

  /** The distance from the mapping's base to the block. */
  function HeaderSpace(alignment: nat): nat
    requires alignment > 0
  {
    AlignUp(LARGE_HEADER, alignment)
  }

  lemma HeaderBounds(alignment: nat)
    requires PowerOfTwo(alignment)
    ensures LARGE_HEADER <= HeaderSpace(alignment) < LARGE_HEADER + alignment && HeaderSpace(alignment) % alignment == 0
  {
    AlignUpLeast(LARGE_HEADER, alignment);
  }

  /** Rounding up to whole pages, in 64-bit arithmetic. */
  function WholePages(n: nat, page: nat): nat
    requires page > 0
  {
    AndNot((n + page - 1) % WORD, page - 1)
  }

  /** The size of the mapping. */
  function Total(size: nat, alignment: nat, page: nat): nat
    requires alignment > 0 && page > 0
  {
    WholePages((HeaderSpace(alignment) + size) % WORD, page)
  }

  predicate NoWrap(size: nat, alignment: nat, page: nat)
    requires alignment > 0
  {
    HeaderSpace(alignment) + size + page - 1 < WORD
  }

  lemma PagesUp(n: nat, page: nat)
    requires PowerOfTwo(page) && n + page - 1 < WORD
    ensures WholePages(n, page) == AlignUp(n, page)
    ensures n <= WholePages(n, page) < n + page && WholePages(n, page) % page == 0
  {
    BelowWord(n + page - 1);
    AlignUpLeast(n, page);
  }

  lemma PagesWrap(n: nat, page: nat)
    requires 0 < page <= WORD && n < WORD && n + page - 1 >= WORD
    ensures WholePages(n, page) < page
  {
    assert (n + page - 1) % WORD == n + page - 1 - WORD;
    AndNotLe(n + page - 1 - WORD, page - 1);
  }

  /** The block fits its mapping exactly when the additions do not wrap around; and then the mapping is the least
      number of whole pages. */
  lemma FitsIff(size: nat, alignment: nat, page: nat)
    requires PowerOfTwo(alignment) && PowerOfTwo(page) && page <= WORD / 4 && alignment <= WORD / 2 && size < WORD
    ensures HeaderSpace(alignment) + size <= Total(size, alignment, page) <==> NoWrap(size, alignment, page)
    ensures NoWrap(size, alignment, page) ==>
      Total(size, alignment, page) < HeaderSpace(alignment) + size + page && Total(size, alignment, page) % page == 0
  {
    HeaderBounds(alignment);
    SumFits(HeaderSpace(alignment) + size, page);
  }

  lemma SumFits(sum: nat, page: nat)
    requires PowerOfTwo(page) && page <= WORD / 4 && sum < 2 * WORD
    ensures sum <= WholePages(sum % WORD, page) <==> sum + page - 1 < WORD
    ensures sum + page - 1 < WORD ==>
      WholePages(sum % WORD, page) < sum + page && WholePages(sum % WORD, page) % page == 0
  {
    if sum < WORD { BelowWord(sum); } else { BelowWord(sum - WORD); assert sum % WORD == sum - WORD; }
    var n := sum % WORD;
    if n + page - 1 < WORD { PagesUp(n, page); } else { PagesWrap(n, page); }
  }

  /** The greatest request does wrap: it gets a mapping of one page. */
  lemma GreatestWraps(page: nat)
    requires PowerOfTwo(page) && 48 <= page <= WORD / 4
    ensures Total(WORD - 1, MIN_ALIGN, page) == page && !NoWrap(WORD - 1, MIN_ALIGN, page)
  {
    Power(4);
    HeaderBounds(MIN_ALIGN);
    WrapsTo(HeaderSpace(MIN_ALIGN), page);
  }

  lemma WrapsTo(hs: nat, page: nat)
    requires PowerOfTwo(page) && 0 < hs - 1 <= page <= WORD / 4
    ensures WholePages((hs + (WORD - 1)) % WORD, page) == page
  {
    Residue(hs + (WORD - 1), 1, hs - 1, WORD);
    PagesUp(hs - 1, page);
    OnlyMultiple(WholePages(hs - 1, page), page);
  }

  lemma OnlyMultiple(n: nat, a: nat)
    requires a > 0 && 0 < n < 2 * a && n % a == 0
    ensures n == a
  {
    assert n == n / a * a;
    if n / a > 1 { MulGap(1, n / a, a); }
  }

  /** The block of an aligned allocation: aligned, past the record, inside the mapping. */
  lemma BlockPlace(size: nat, alignment: nat, page: nat, base: nat)
    requires PowerOfTwo(alignment) && PowerOfTwo(page) && page <= WORD / 4 && alignment <= WORD / 2 && size < WORD
    requires NoWrap(size, alignment, page) && base % (if page > alignment then page else alignment) == 0
    ensures var ptr := base + HeaderSpace(alignment);
            && ptr % alignment == 0
            && base + LARGE_HEADER <= ptr && ptr + size <= base + Total(size, alignment, page)
            && (ptr < base + Total(size, alignment, page) <==> size > 0 || HeaderSpace(alignment) % page != 0)
  {
    PlaceAligned(alignment, page, base);
    FitsIff(size, alignment, page);
    Strict(size, alignment, page);
  }

  lemma PlaceAligned(alignment: nat, page: nat, base: nat)
    requires PowerOfTwo(alignment) && PowerOfTwo(page) && base % (if page > alignment then page else alignment) == 0
    ensures (base + HeaderSpace(alignment)) % alignment == 0 && LARGE_HEADER <= HeaderSpace(alignment)
  {
    HeaderBounds(alignment);
    if page > alignment {
      PowersDivide(alignment, page);
      MultipleOfMultiple(base, page, alignment);
    }
    Multiples(base, HeaderSpace(alignment), alignment);
  }

  /** Only an empty block behind whole pages of header touches the end of its mapping. */
  lemma Strict(size: nat, alignment: nat, page: nat)
    requires PowerOfTwo(alignment) && PowerOfTwo(page) && page <= WORD / 4
    requires size < WORD && NoWrap(size, alignment, page)
    ensures HeaderSpace(alignment) < Total(size, alignment, page) <==> size > 0 || HeaderSpace(alignment) % page != 0
  {
    StrictSum(HeaderSpace(alignment), size, page);
  }

  lemma StrictSum(hs: nat, size: nat, page: nat)
    requires PowerOfTwo(page) && hs + size + page - 1 < WORD
    ensures hs < WholePages((hs + size) % WORD, page) <==> size > 0 || hs % page != 0
  {
    BelowWord(hs + size);
    PagesUp(hs + size, page);
    if size == 0 { RoundIsSame(hs, page); }
  }

  lemma RoundIsSame(n: nat, page: nat)
    requires PowerOfTwo(page)
    ensures AlignUp(n, page) == n <==> n % page == 0
  {
    AlignUpLeast(n, page);
    if n % page == 0 { SameResidue(n, AlignUp(n, page), page); }
  }

  // ---- a block at the very end of its mapping ----

  /** An empty block with an alignment of whole pages beyond the record lies at the end of its mapping, where
      nothing of the mapping is left. */
  lemma EmptyBlockOutside(alignment: nat, page: nat, base: nat)
    requires PowerOfTwo(alignment) && PowerOfTwo(page) && LARGE_HEADER <= alignment <= WORD / 4 && page <= alignment
    ensures base + HeaderSpace(alignment) == base + Total(0, alignment, page)
  {
    HeaderBounds(alignment);
    OnlyMultiple(HeaderSpace(alignment), alignment);
    PowersDivide(page, alignment);
    BelowWord(alignment);
    PagesUp(alignment, page);
    RoundIsSame(alignment, page);
  }

  /** my_memalign(131072, 0) is such a request: it takes the aligned way, and its pointer is not in its mapping. */
  lemma EmptyAlignedRequest(alignment: nat, page: nat, la: Record)
    requires alignment == MEDIUM_MAX && PowerOfTwo(page) && page <= alignment && la.size == Total(0, alignment, page)
    ensures Memalign(alignment, 0).Aligned?
    ensures !la.Covers(la.base + HeaderSpace(alignment))
    ensures HeaderSpace(alignment) == la.size
  {
    MediumPower(alignment);
    MemalignRoutes(alignment, 0);
    EmptyBlockOutside(alignment, page, la.base);
  }

  lemma MediumPower(a: nat)
    requires a == MEDIUM_MAX
    ensures PowerOfTwo(a)
  {
    SegmentPower();
    assert a / 2 == PAGE_SIZE;
  }

  /** Freeing such a block misses its own record, and releases the mapping that starts at its end if there is one:
      here the record `la` stays, and `next` goes. */
  method EmptyBlockFree(list: List, la: Record, next: Record, alignment: nat, page: nat)
    requires alignment == MEDIUM_MAX && PowerOfTwo(page) && page <= alignment && la.size == Total(0, alignment, page)
    requires list.Valid() && list.nodes == [la, next] && next.base == la.base + la.size && next.size > 0
    modifies list, list.nodes`next, list.nodes`prev
    ensures list.Valid() && list.nodes == [la]
  {
    EmptyAlignedRequest(alignment, page, la);
    FreeAtEnd(list, la, next, HeaderSpace(alignment));
  }

  method FreeAtEnd(list: List, la: Record, next: Record, offset: nat)
    requires list.Valid() && list.nodes == [la, next] && offset == la.size
    requires next.base == la.base + la.size && next.size > 0
    modifies list, list.nodes`next, list.nodes`prev
    ensures list.Valid() && list.nodes == [la]
  {
    ghost var before := list.nodes;
    var freed, i := list.Free(la.base + offset);
    assert before[0] == la && before[1] == next;
  }

  // ---- my_memalign ----

  /** Which way an aligned request goes. */
  datatype Route = Invalid | Plain | Aligned | Slab(size: nat)

  /** my_memalign; a slab request is for `size` rounded up to the alignment. */
  function Memalign(alignment: nat, size: nat): Route {
    if alignment == 0 || And(alignment, alignment - 1) != 0 then Invalid
    else if alignment <= MIN_ALIGN then Plain
    else if size > MEDIUM_MAX || alignment > PAGE_SIZE then Aligned
    else
      var rounded := AlignUp(if size < alignment then alignment else size, alignment);
      if rounded > MEDIUM_MAX then Aligned else Slab(rounded)
  }

  /** Exactly the powers of two are accepted; those up to 16 go the plain way; larger ones get an aligned mapping
      exactly when the size or the alignment is too large for a slab, so the second test of the size never
      applies; and the slab request is the least multiple of the alignment that holds the size. */
  lemma MemalignRoutes(alignment: nat, size: nat)
    ensures Memalign(alignment, size).Invalid? <==> !PowerOfTwo(alignment)
    ensures Memalign(alignment, size).Plain? <==> PowerOfTwo(alignment) && alignment <= MIN_ALIGN
    ensures Memalign(alignment, size).Aligned? <==>
      PowerOfTwo(alignment) && alignment > MIN_ALIGN && (size > MEDIUM_MAX || alignment > PAGE_SIZE)
    ensures Memalign(alignment, size).Slab? ==>
      && Memalign(alignment, size).size % alignment == 0
      && size <= Memalign(alignment, size).size <= MEDIUM_MAX && alignment <= Memalign(alignment, size).size
      && Memalign(alignment, size).size < (if size < alignment then alignment else size) + alignment
  {
    if alignment > 0 {
      PowerTest(alignment);
      if PowerOfTwo(alignment) && MIN_ALIGN < alignment <= PAGE_SIZE && size <= MEDIUM_MAX {
        RoundsWithin(if size < alignment then alignment else size, alignment);
      }
    }
  }

  /** Rounding up to a power of two does not pass a multiple of it. */
  lemma RoundsWithin(x: nat, a: nat)
    requires PowerOfTwo(a) && a <= PAGE_SIZE && x <= MEDIUM_MAX
    ensures x <= AlignUp(x, a) <= MEDIUM_MAX && AlignUp(x, a) % a == 0 && AlignUp(x, a) < x + a
  {
    AlignUpLeast(x, a);
    Within(x, AlignUp(x, a), MEDIUM_MAX, a);
  }

  lemma Within(x: nat, r: nat, m: nat, a: nat)
    requires PowerOfTwo(a) && a <= PAGE_SIZE && m == MEDIUM_MAX && x <= m && r < x + a && r % a == 0
    ensures r <= m
  {
    MediumPower(m);
    PowersDivide(a, m);
    if r > m { MultiplesApart(m, r, a); }
  }

  /** On the slab path every slot the request may get is aligned exactly when the slot size of its bin is a
      multiple of the alignment. */
  lemma MemalignSlab(alignment: nat, size: nat, bin: nat, start: nat)
    requires Memalign(alignment, size).Slab? && LeastFit(bin, Memalign(alignment, size).size)
    requires ClassSize(bin) <= PAGE_SIZE / 2 && start % PAGE_SIZE == 0
    ensures var slot := SlotSize(ClassSize(bin));
            && MIN_ALIGN <= slot
            && ((forall k: nat | k < Capacity(slot) ::
                  SlotAddr(start, slot, k) % alignment == 0) <==> slot % alignment == 0)
  {
    MemalignRoutes(alignment, size);
    SlotSizeBounds(ClassSize(bin));
    AllSlotsAligned(start, SlotSize(ClassSize(bin)), alignment);
  }

  /** When the bin's slots exceed half a page the request falls back to a 16-byte aligned large block, which is
      never aligned as asked. */
  lemma MemalignFallback(alignment: nat, size: nat, page: nat, base: nat)
    requires Memalign(alignment, size).Slab? && PowerOfTwo(page) && 32 <= page && base % page == 0
    ensures (base + HeaderSpace(MIN_ALIGN)) % alignment != 0
  {
    MemalignRoutes(alignment, size);
    assert alignment > MIN_ALIGN;
    Power(4);
    PowersHalf(MIN_ALIGN, alignment);
    HeaderBounds(MIN_ALIGN);
    OffBySixteen(base, HeaderSpace(MIN_ALIGN), page, alignment);
  }

  lemma OffBySixteen(base: nat, hs: nat, page: nat, alignment: nat)
    requires PowerOfTwo(page) && PowerOfTwo(alignment) && 32 <= page && 32 <= alignment
    requires base % page == 0 && hs == 48
    ensures (base + hs) % alignment != 0
  {
    Power(5);
    MultipleOfPower(base, page, 32);
    if (base + hs) % alignment == 0 { MultipleOfPower(base + hs, alignment, 32); }
  }

  /** 32-byte alignment of 160 bytes is not kept: the slots of bin 17 are 176 bytes apart. */
  lemma MemalignMisses(bin: nat)
    requires bin == 17
    ensures Memalign(32, 160) == Slab(160) && LeastFit(bin, 160) && SlotSize(ClassSize(bin)) % 32 != 0
  {
    Power(5);
    PowerTest(32);
    AlignUpLeast(160, 32);
    FlatBoundFails(bin);
    forall c: nat | c < bin ensures ClassSize(c) < 160 {}
  }
}
