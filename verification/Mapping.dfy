/** Aligned mappings from the operating system: over-allocate, then trim both ends. */
module Mapping {
  import opened Basics
  import opened Bits

  /** The length that os_mmap_aligned asks the system for. */
  function Asked(size: nat, alignment: nat, page: nat): nat {
    if alignment <= page then size else (size + alignment - 1) % WORD
  }

  /** The address it returns when the system answers `addr`. */
  function Trimmed(addr: nat, alignment: nat, page: nat): nat
    requires alignment > 0
  {
    if alignment <= page then addr else AndNot((addr + alignment - 1) % WORD, alignment - 1)
  }

  /** The additions of an aligned request stay below 2^64. */
  predicate NoWrap(size: nat, alignment: nat, page: nat) {
    alignment <= page || size + alignment - 1 < WORD
  }

  lemma TrimAligned(alignment: nat, page: nat, addr: nat)
    requires PowerOfTwo(alignment) && PowerOfTwo(page) && addr % page == 0
    ensures Trimmed(addr, alignment, page) % alignment == 0
  {
    if alignment <= page {
      PowersDivide(alignment, page);
      MultipleOfMultiple(addr, page, alignment);
    } else {
      var y := (addr + alignment - 1) % WORD;
      MaskFloors(y, alignment);
      FloorMultiple(y, alignment);
    }
  }

  lemma TrimInside(size: nat, alignment: nat, page: nat, addr: nat)
    requires PowerOfTwo(alignment) && page < alignment && 0 < size && size + alignment - 1 < WORD
    requires addr + Asked(size, alignment, page) <= WORD
    ensures addr <= Trimmed(addr, alignment, page)
    ensures Trimmed(addr, alignment, page) + size <= addr + Asked(size, alignment, page)
  {
    BelowWord(size + alignment - 1);
    BelowWord(addr + alignment - 1);
    AlignUpLeast(addr, alignment);
  }

  lemma WrapShrinks(size: nat, alignment: nat)
    requires size < WORD && 0 < alignment < WORD && size + alignment - 1 >= WORD
    ensures (size + alignment - 1) % WORD < size
  {
    BelowWord(size + alignment - 1 - WORD);
    assert (size + alignment - 1) % WORD == size + alignment - 1 - WORD;
  }

  /** The trimmed range is aligned, and it lies inside the mapping exactly when the request did not wrap. */
  lemma TrimExact(size: nat, alignment: nat, page: nat, addr: nat)
    requires PowerOfTwo(alignment) && PowerOfTwo(page) && 0 < size < WORD && alignment < WORD
    requires addr % page == 0 && addr + Asked(size, alignment, page) <= WORD
    ensures Trimmed(addr, alignment, page) % alignment == 0
    ensures NoWrap(size, alignment, page) <==>
      && addr <= Trimmed(addr, alignment, page)
      && Trimmed(addr, alignment, page) + size <= addr + Asked(size, alignment, page)
  {
    TrimAligned(alignment, page, addr);
    if page < alignment {
      if size + alignment - 1 < WORD { TrimInside(size, alignment, page, addr); } else { WrapShrinks(size, alignment); }
    }
  }

  /** The addresses from `lo` up to, not including, `hi`. */
  function Bytes(lo: nat, hi: nat): set<nat> { set x: nat | lo <= x < hi && Within(lo, x, hi) }

  predicate Within(lo: nat, x: nat, hi: nat) { lo <= x < hi }

  lemma {:induction false} BytesCount(lo: nat, hi: nat)
    requires lo <= hi
    ensures |Bytes(lo, hi)| == hi - lo
    decreases hi - lo
  {
    if lo < hi {
      BytesCount(lo + 1, hi);
      assert Bytes(lo, hi) == {lo} + Bytes(lo + 1, hi);
    }
  }

  /** Trimming the front and the end of a new range, and what a new range adds. */
  lemma TrimFront(mapped: set<nat>, addr: nat, aligned: nat, end: nat)
    requires addr <= aligned <= end && forall x | x in mapped :: !(addr <= x < end)
    ensures mapped + Bytes(addr, end) - Bytes(addr, aligned) == mapped + Bytes(aligned, end)
  {
  }

  lemma TrimEnd(mapped: set<nat>, addr: nat, end: nat, baseEnd: nat)
    requires addr <= end <= baseEnd && forall x | x in mapped :: !(addr <= x < baseEnd)
    ensures mapped + Bytes(addr, baseEnd) - Bytes(end, baseEnd) == mapped + Bytes(addr, end)
  {
  }

  /** A range that sticks out has an address of its own. */
  lemma NotInside(addr: nat, extra: nat, aligned: nat, size: nat)
    requires size > 0 && !(addr <= aligned && aligned + size <= addr + extra)
    ensures !(Bytes(aligned, aligned + size) <= Bytes(addr, addr + extra))
  {
    var x := if aligned < addr then aligned else aligned + size - 1;
    assert x in Bytes(aligned, aligned + size) && x !in Bytes(addr, addr + extra);
  }

  lemma AddedCount(mapped: set<nat>, addr: nat, end: nat)
    requires addr <= end && forall x | x in mapped :: !(addr <= x < end)
    ensures |mapped + Bytes(addr, end)| == |mapped| + (end - addr)
  {
    BytesCount(addr, end);
    assert mapped !! Bytes(addr, end);
  }

  /** The process's mappings, and the counter the allocator keeps of them. */
  class Os {
    const page: nat
    ghost var mapped: set<nat>
    var mmapBytes: nat

    ghost predicate Valid()
      reads this
    {
      mmapBytes == |mapped| && PowerOfTwo(page)
    }

    constructor (page: nat)
      requires PowerOfTwo(page)
      ensures Valid() && mapped == {}
    {
      this.page, mapped, mmapBytes := page, {}, 0;
    }

    /** What the system promises of an answer: page-aligned memory that is not in use. */
    ghost predicate Unused(addr: nat, len: nat)
      reads this
      requires page > 0
    {
      addr % page == 0 && addr + len <= WORD && forall x | x in mapped :: !(addr <= x < addr + len)
    }

    /** os_mmap_aligned, given the system's answer to the mmap it makes. When the request wraps around, the
        returned range is not inside the new mapping. */
    method MmapAligned(size: nat, alignment: nat, answer: Option<nat>) returns (r: Option<nat>)
      requires Valid() && PowerOfTwo(alignment) && 0 < size < WORD && alignment < WORD
      requires answer.Some? ==> Unused(answer.value, Asked(size, alignment, page))
      modifies this
      ensures r == if answer.Some? then Some(Trimmed(answer.value, alignment, page)) else None
      ensures r.None? ==> Valid() && mapped == old(mapped)
      ensures r.Some? ==> r.value % alignment == 0
      ensures r.Some? && NoWrap(size, alignment, page) ==>
        && Valid() && mapped == old(mapped) + Bytes(r.value, r.value + size)
        && forall x | r.value <= x < r.value + size :: x !in old(mapped)
      ensures r.Some? && !NoWrap(size, alignment, page) ==>
        !(Bytes(r.value, r.value + size) <= Bytes(answer.value, answer.value + Asked(size, alignment, page)))
    {
      if answer.None? { return None; }
      var addr := answer.value;
      TrimExact(size, alignment, page, addr);
      var aligned := Trimmed(addr, alignment, page);
      Map(addr, Asked(size, alignment, page), aligned, size);
      return Some(aligned);
    }

    /** Map `extra` bytes at `addr` and keep the `size` bytes at `aligned`. */
    method Map(addr: nat, extra: nat, aligned: nat, size: nat)
      requires Valid() && size > 0 && forall x | x in mapped :: !(addr <= x < addr + extra)
      modifies this
      ensures addr <= aligned && aligned + size <= addr + extra ==>
        && Valid() && mapped == old(mapped) + Bytes(aligned, aligned + size)
        && forall x | aligned <= x < aligned + size :: x !in old(mapped)
      ensures !(addr <= aligned && aligned + size <= addr + extra) ==>
        !(Bytes(aligned, aligned + size) <= Bytes(addr, addr + extra))
    {
      if addr <= aligned && aligned + size <= addr + extra {
        AddedCount(mapped, aligned, aligned + size);
      } else {
        NotInside(addr, extra, aligned, size);
      }
      Trim(addr, extra, aligned, size);
    }

    /** The mapping itself: what lies before and behind the kept bytes is unmapped again. */
    method Trim(addr: nat, extra: nat, aligned: nat, size: nat)
      requires forall x | x in mapped :: !(addr <= x < addr + extra)
      modifies this
      ensures mmapBytes == old(mmapBytes) + size
      ensures addr <= aligned && aligned + size <= addr + extra ==>
        mapped == old(mapped) + Bytes(aligned, aligned + size)
    {
      ghost var before := mapped;
      var end, baseEnd := aligned + size, addr + extra;
      mapped := mapped + Bytes(addr, baseEnd);
      if aligned > addr {
        if aligned <= baseEnd { TrimFront(before, addr, aligned, baseEnd); }
        mapped := mapped - Bytes(addr, aligned);
      }
      if baseEnd > end {
        if addr <= aligned { TrimEnd(before, aligned, end, baseEnd); }
        mapped := mapped - Bytes(end, baseEnd);
      }
      mmapBytes := mmapBytes + size;
    }

    /** os_munmap. */
    method Munmap(addr: nat, size: nat)
      requires Valid() && Bytes(addr, addr + size) <= mapped
      modifies this
      ensures Valid()
      ensures mapped == if addr != 0 then old(mapped) - Bytes(addr, addr + size) else old(mapped)
    {
      if addr != 0 && size > 0 {
        BytesCount(addr, addr + size);
        assert mapped * Bytes(addr, addr + size) == Bytes(addr, addr + size);
        assert |mapped - Bytes(addr, addr + size)| == |mapped| - size;
        mapped := mapped - Bytes(addr, addr + size);
        mmapBytes := mmapBytes - size;
      }
    }
  }
}
