/** debug_heap_check: what it decides on any memory, what its answer means, and that it passes in every
    quiescent state. */
module HeapCheck {
  import opened Basics
  import opened Geometry
  import opened Debug
  import opened PageProtocol
  import opened PageInvariant
  import opened PageRuns

  /** Words of memory, by address. */
  type Words = nat -> nat

  /** The metadata of a page as the check reads it. */
  datatype Meta = Meta(
    start: nat, slotSize: nat, cap: nat, used: nat, localFree: nat, localCount: nat,
    remoteCount: nat, bumpOffset: nat, bumpEnd: nat, bits: seq<bv8>, inUse: bool)

  /** The ranges of the fields, as page_init sets them. */
  predicate Plausible(m: Meta) {
    && m.slotSize > 0 && m.cap <= 4096 && (m.cap + 7) / 8 <= |m.bits|
    && m.used < COUNTER_MOD && m.localCount < COUNTER_MOD && m.remoteCount < COUNTER_MOD
  }

  /** debug_slot_index, with its 16-bit truncation; None is UINT16_MAX. */
  function SlotIndex(m: Meta, addr: nat): Option<nat>
    requires m.slotSize > 0
  {
    if addr < m.start || (addr - m.start) % m.slotSize != 0 then None
    else
      var idx := (addr - m.start) / m.slotSize % COUNTER_MOD;
      if idx < m.cap then Some(idx) else None
  }

  /** The list of addresses that starts at `a` and ends with null. */
  ghost predicate ListAt(mem: Words, a: nat, s: seq<nat>)
    decreases |s|
  {
    if s == [] then a == 0 else a == s[0] != 0 && ListAt(mem, mem(a), s[1..])
  }

  /** Walking along `s` leads from `a` to `e`. */
  ghost predicate WalkTo(mem: Words, a: nat, s: seq<nat>, e: nat)
    decreases |s|
  {
    if s == [] then a == e else a == s[0] != 0 && WalkTo(mem, mem(a), s[1..], e)
  }

  /** A list entry the check accepts: the address of a slot whose bit is clear. */
  predicate GoodEntry(m: Meta, a: nat)
    requires m.slotSize > 0
  {
    SlotIndex(m, a).Some? && !BitAt(m.bits, SlotIndex(m, a).value)
  }

  ghost predicate AllGood(m: Meta, s: seq<nat>)
    requires m.slotSize > 0
  {
    forall a | a in s :: GoodEntry(m, a)
  }

  lemma AllGoodMore(m: Meta, s: seq<nat>, e: nat)
    requires m.slotSize > 0
    ensures AllGood(m, s + [e]) <==> AllGood(m, s) && GoodEntry(m, e)
  {
    if AllGood(m, s + [e]) {
      forall a | a in s ensures GoodEntry(m, a) { assert a in s + [e]; }
      assert e in s + [e];
    }
  }

  /** The virgin slots, as the check computes them from the bump offset and its end. */
  function VirginSlots(m: Meta): nat
    requires m.slotSize > 0
  {
    if m.bumpEnd > m.bumpOffset then (m.bumpEnd - m.bumpOffset) / m.slotSize % COUNTER_MOD else 0
  }

  /** What the check decides about a page. */
  ghost predicate PageOk(m: Meta, mem: Words)
    requires Plausible(m)
  {
    && |SetBelow(m.bits, 8 * ((m.cap + 7) / 8))| == m.used
    && Add16(m.used + m.localCount + m.remoteCount, VirginSlots(m)) == m.cap
    && exists s :: GoodList(m, mem, s)
  }

  ghost predicate GoodList(m: Meta, mem: Words, s: seq<nat>)
    requires m.slotSize > 0
  {
    ListAt(mem, m.localFree, s) && |s| == m.localCount && |s| <= m.cap && AllGood(m, s)
  }

  // ---- lists are determined by their start ----

  lemma {:induction false} WalkMore(mem: Words, a: nat, s: seq<nat>, e: nat)
    requires WalkTo(mem, a, s, e) && e != 0
    ensures WalkTo(mem, a, s + [e], mem(e))
    decreases |s|
  {
    if s == [] {
      assert (s + [e])[1..] == [];
    } else {
      WalkMore(mem, mem(a), s[1..], e);
      assert (s + [e])[1..] == s[1..] + [e];
    }
  }

  lemma {:induction false} WalkEnds(mem: Words, a: nat, s: seq<nat>)
    requires WalkTo(mem, a, s, 0)
    ensures ListAt(mem, a, s)
    decreases |s|
  {
    if s != [] { WalkEnds(mem, mem(a), s[1..]); }
  }

  /** Every list from `a` follows a walk from `a`. */
  lemma {:induction false} ListFollows(mem: Words, a: nat, s: seq<nat>, e: nat, r: seq<nat>)
    requires WalkTo(mem, a, s, e) && ListAt(mem, a, r)
    ensures |s| <= |r| && s == r[..|s|] && ListAt(mem, e, r[|s|..])
    decreases |s|
  {
    if s != [] {
      ListFollows(mem, mem(a), s[1..], e, r[1..]);
      assert r[1..][..|s| - 1] == r[1..|s|] && r[1..][|s| - 1..] == r[|s|..];
      assert s == [s[0]] + s[1..] && r[..|s|] == [r[0]] + r[1..|s|];
    } else {
      assert r[0..] == r;
    }
  }

  lemma {:induction false} ListUnique(mem: Words, a: nat, s: seq<nat>, r: seq<nat>)
    requires ListAt(mem, a, s) && ListAt(mem, a, r)
    ensures s == r
    decreases |s|
  {
    if s != [] {
      ListUnique(mem, mem(a), s[1..], r[1..]);
      assert s == [s[0]] + s[1..] && r == [r[0]] + r[1..];
    }
  }

  lemma {:induction false} ListTail(mem: Words, a: nat, s: seq<nat>, i: nat)
    requires ListAt(mem, a, s) && i < |s|
    ensures ListAt(mem, s[i], s[i..])
    decreases i
  {
    if i == 0 {
      assert s[0..] == s;
    } else {
      ListTail(mem, mem(a), s[1..], i - 1);
      assert s[1..][i - 1..] == s[i..];
    }
  }

  /** A null-terminated list visits no address twice. */
  lemma ListNoDup(mem: Words, a: nat, s: seq<nat>)
    requires ListAt(mem, a, s)
    ensures NoDup(s)
  {
    forall i, j | 0 <= i < j < |s| ensures s[i] != s[j] {
      if s[i] == s[j] {
        ListTail(mem, a, s, i);
        ListTail(mem, a, s, j);
        ListUnique(mem, s[i], s[i..], s[j..]);
      }
    }
  }

  // ---- the loops of the code ----

  method CountBits(m: Meta) returns (count: nat)
    requires Plausible(m)
    ensures count == |SetBelow(m.bits, 8 * ((m.cap + 7) / 8))|
  {
    count := 0;
    for b := 0 to (m.cap + 7) / 8
      invariant count == |SetBelow(m.bits, 8 * b)|
    {
      ByteMore(m.bits, b);
      count := count + Popcount(m.bits[b]);
    }
  }

  /** The walk of the local list: the length, and whether it ended at null with good entries only. */
  method WalkLocal(m: Meta, mem: Words) returns (walked: nat, ok: bool)
    requires Plausible(m)
    ensures ok <==> exists s :: ListAt(mem, m.localFree, s) && |s| <= m.cap && AllGood(m, s)
    ensures ok ==> exists s :: ListAt(mem, m.localFree, s) && |s| == walked
  {
    var entry := m.localFree;
    walked, ok := 0, true;
    ghost var s: seq<nat> := [];
    while entry != 0
      invariant WalkTo(mem, m.localFree, s, entry) && walked == |s| <= m.cap
      invariant ok <==> AllGood(m, s)
      decreases m.cap - walked
    {
      walked := walked + 1;
      WalkMore(mem, m.localFree, s, entry);
      forall r | ListAt(mem, m.localFree, r) ensures |s| < |r| && entry in r {
        ListFollows(mem, m.localFree, s, entry, r);
        assert r[|s|] == entry;
      }
      if walked > m.cap { return walked, false; }
      var idx := SlotIndex(m, entry);
      if idx.None? { return walked, false; }
      if BitAt(m.bits, idx.value) { ok := false; }
      AllGoodMore(m, s, entry);
      s := s + [entry];
      entry := mem(entry);
    }
    WalkEnds(mem, m.localFree, s);
    forall r | ListAt(mem, m.localFree, r) ensures r == s { ListUnique(mem, m.localFree, r, s); }
  }

  /** The check of one page: it passes exactly when `used` is the number of marked slots, used, local, remote and
      virgin slots add up to the capacity modulo 2^16, and the local list is null-terminated, as long as its counter
      and made of slots that are not marked. */
  method CheckPage(m: Meta, mem: Words) returns (ok: bool)
    requires Plausible(m)
    ensures ok <==>
      && |set k: nat | k < 8 * ((m.cap + 7) / 8) && BitAt(m.bits, k)| == m.used
      && (m.used + m.localCount + m.remoteCount + VirginSlots(m)) % 65536 == m.cap
      && exists s :: ListAt(mem, m.localFree, s) && |s| == m.localCount <= m.cap && forall a | a in s ::
           SlotIndex(m, a).Some? && !BitAt(m.bits, SlotIndex(m, a).value)
    ensures ok <==> PageOk(m, mem)
  {
    assert SetBelow(m.bits, 8 * ((m.cap + 7) / 8)) == set k: nat | k < 8 * ((m.cap + 7) / 8) && BitAt(m.bits, k);
    ok := true;
    var bits := CountBits(m);
    if bits != m.used { ok := false; }
    var walked, good := WalkLocal(m, mem);
    if !good { ok := false; }
    if walked != m.localCount { ok := false; }
    if Add16(m.used + walked + m.remoteCount, VirginSlots(m)) != m.cap { ok := false; }
    if good {
      ghost var s :| ListAt(mem, m.localFree, s) && |s| <= m.cap && AllGood(m, s);
      forall r | ListAt(mem, m.localFree, r) ensures r == s { ListUnique(mem, m.localFree, r, s); }
      assert |s| == m.localCount ==> GoodList(m, mem, s);
    }
  }

  /** Every page in use of a segment, page 0 being its header, is as page_init leaves it. */
  ghost predicate PlausibleSegment(pages: seq<Meta>) {
    forall i | 1 <= i < |pages| && pages[i].inUse :: Plausible(pages[i])
  }

  ghost predicate SegmentOk(pages: seq<Meta>, mem: Words)
    requires PlausibleSegment(pages)
  {
    forall i | 1 <= i < |pages| && pages[i].inUse :: PageOk(pages[i], mem)
  }

  method CheckSegment(pages: seq<Meta>, mem: Words) returns (ok: bool)
    requires PlausibleSegment(pages)
    ensures ok <==> SegmentOk(pages, mem)
  {
    ok := true;
    var i := 1;
    while i < |pages|
      invariant ok <==> forall j | 1 <= j < i && j < |pages| && pages[j].inUse :: PageOk(pages[j], mem)
    {
      if pages[i].inUse {
        var good := CheckPage(pages[i], mem);
        if !good { ok := false; }
      }
      i := i + 1;
    }
  }

  /** debug_heap_check, over the segments of every arena. */
  method Check(arenas: seq<seq<seq<Meta>>>, mem: Words) returns (ok: bool)
    requires forall a, s | 0 <= a < |arenas| && 0 <= s < |arenas[a]| :: PlausibleSegment(arenas[a][s])
    ensures ok <==> forall a, s | 0 <= a < |arenas| && 0 <= s < |arenas[a]| :: SegmentOk(arenas[a][s], mem)
  {
    ok := true;
    for a := 0 to |arenas|
      invariant ok <==> forall b, s | 0 <= b < a && 0 <= s < |arenas[b]| :: SegmentOk(arenas[b][s], mem)
    {
      var before := ok;
      for s := 0 to |arenas[a]|
        invariant ok <==> before && forall r | 0 <= r < s :: SegmentOk(arenas[a][r], mem)
      {
        var good := CheckSegment(arenas[a][s], mem);
        if !good { ok := false; }
      }
    }
  }

  // ---- what a passed check means ----

  /** A passed page has a null-terminated, duplicate-free local list, as long as its counter, of addresses
      that are slots of the page up to a multiple of 65536 slots, and whose bits are clear; as many marked slots as
      `used`; and a full account of its slots modulo 2^16. */
  lemma PassedPage(m: Meta, mem: Words) returns (s: seq<nat>)
    requires Plausible(m) && PageOk(m, mem)
    ensures ListAt(mem, m.localFree, s) && NoDup(s) && |s| == m.localCount <= m.cap
    ensures forall a | a in s :: GoodEntry(m, a)
    ensures (forall k: nat | m.cap <= k < 8 * ((m.cap + 7) / 8) :: !BitAt(m.bits, k)) ==>
      |set k: nat | k < m.cap && BitAt(m.bits, k)| == m.used
    ensures (m.used + |s| + m.remoteCount + VirginSlots(m)) % 65536 == m.cap
  {
    s :| GoodList(m, mem, s);
    ListNoDup(mem, m.localFree, s);
    if forall k: nat | m.cap <= k < 8 * ((m.cap + 7) / 8) :: !BitAt(m.bits, k) {
      assert SetBelow(m.bits, 8 * ((m.cap + 7) / 8)) == set k: nat | k < m.cap && BitAt(m.bits, k);
    }
  }

  /** An accepted entry lies in the page exactly when it is less than 65536 slots from the page's start. */
  lemma EntryInPage(m: Meta, a: nat)
    requires Plausible(m) && SlotIndex(m, a).Some?
    ensures (exists k: nat ::
      k < m.cap && a == SlotAddr(m.start, m.slotSize, k)) <==> a < m.start + COUNTER_MOD * m.slotSize
  {
    var n := (a - m.start) / m.slotSize;
    assert a == SlotAddr(m.start, m.slotSize, n);
    if n < COUNTER_MOD {
      MulGap(n, COUNTER_MOD, m.slotSize);
    } else {
      if n > COUNTER_MOD { MulGap(COUNTER_MOD, n, m.slotSize); }
      forall k: nat | k < m.cap ensures a != SlotAddr(m.start, m.slotSize, k) { MulGap(k, n, m.slotSize); }
    }
  }

  /** Such an entry outside the page can pass: one that is 65536 slots of 16 bytes too far. */
  lemma FarEntryPasses() returns (m: Meta, mem: Words)
    ensures Plausible(m) && PageOk(m, mem) && m.localFree >= m.start + PAGE_SIZE
  {
    var start := 0x41_0000;
    var far := start + 0x10_0000;
    m := Meta(start, 16, 4096, 0, far, 1, 0, 16, 65536, seq(512, _ => 0), true);
    mem := _ => 0;
    assert SetBelow(m.bits, 4096) == {} by {
      forall k: nat | k < 4096 ensures !BitAt(m.bits, k) {}
    }
    assert SlotIndex(m, far) == Some(0);
    assert ListAt(mem, far, [far]);
    assert GoodList(m, mem, [far]);
  }

  // ---- quiescent states pass ----

  function AddrOf(m: Meta, ptr: Ptr): nat {
    match ptr
    case Null => 0
    case At(k) => SlotAddr(m.start, m.slotSize, k)
  }

  /** The metadata of a page in state `p`, and its memory: slots on a free list hold their link, live and virgin
      slots hold anything. */
  ghost predicate Represents(m: Meta, mem: Words, p: Page) {
    && Plausible(m) && m.start > 0 && m.cap == p.cap && m.used == p.used
    && m.localFree == AddrOf(m, p.localHead) && m.localCount == p.localCount && m.remoteCount == p.remoteCount
    && m.bumpOffset == p.bump * m.slotSize && m.bumpEnd == p.cap * m.slotSize
    && (forall k: nat | k < p.bump && k !in p.live ::
          mem(SlotAddr(m.start, m.slotSize, k)) == AddrOf(m, Fetch(p.link, k)))
    && (forall k: nat | k < 8 * |m.bits| :: BitAt(m.bits, k) <==> k in p.bitmap)
  }

  ghost function Addrs(m: Meta, s: seq<nat>): (r: seq<nat>)
    ensures |r| == |s|
  {
    seq(|s|, i requires 0 <= i < |s| => SlotAddr(m.start, m.slotSize, s[i]))
  }

  /** A list of slots is a list of addresses in memory. */
  lemma {:induction false} ChainList(m: Meta, mem: Words, p: Page, head: Ptr, s: seq<nat>)
    requires Represents(m, mem, p) && Chain(p.link, head, s) && forall k | k in s :: k < p.bump && k !in p.live
    ensures ListAt(mem, AddrOf(m, head), Addrs(m, s))
    decreases |s|
  {
    if s != [] {
      ChainSuffix(p.link, head, s, 1);
      assert forall k | k in s[1..] :: k in s;
      ChainList(m, mem, p, Fetch(p.link, s[0]), s[1..]);
      assert Addrs(m, s)[1..] == Addrs(m, s[1..]);
      assert s[0] in s;
    }
  }

  lemma IndexOfSlot(m: Meta, k: nat)
    requires Plausible(m) && k < m.cap
    ensures SlotIndex(m, SlotAddr(m.start, m.slotSize, k)) == Some(k)
  {
    Residue(k * m.slotSize, k, 0, m.slotSize);
    assert SlotAddr(m.start, m.slotSize, k) - m.start == k * m.slotSize;
    NoCarry(k, 0, k);
  }

  /** The local list is a good one. */
  lemma LocalGood(m: Meta, mem: Words, p: Page, v: View)
    requires Inv(p, v) && p.debug && Represents(m, mem, p)
    ensures ListAt(mem, m.localFree, Addrs(m, v.local)) && AllGood(m, Addrs(m, v.local))
  {
    forall k | k in v.local ensures k < p.bump && k !in p.live { assert SlotOk(p, v, k); }
    ChainList(m, mem, p, p.localHead, v.local);
    forall a | a in Addrs(m, v.local) ensures GoodEntry(m, a) {
      var i :| 0 <= i < |v.local| && a == SlotAddr(m.start, m.slotSize, v.local[i]);
      var k := v.local[i];
      assert k in v.local && SlotOk(p, v, k);
      IndexOfSlot(m, k);
    }
  }

  lemma BitsAreLive(m: Meta, mem: Words, p: Page, v: View)
    requires Inv(p, v) && p.debug && Represents(m, mem, p)
    ensures SetBelow(m.bits, 8 * ((m.cap + 7) / 8)) == p.live
  {
  }

  lemma BumpArith(cap: nat, bump: nat, size: nat)
    requires bump <= cap && size > 0
    ensures cap * size > bump * size <==> cap > bump
    ensures (cap * size - bump * size) / size == cap - bump
  {
    var left := cap - bump;
    assert cap * size - bump * size == left * size;
    Residue(left * size, left, 0, size);
    if left > 0 { MulGap(bump, cap, size); }
  }

  lemma BumpExact(m: Meta, cap: nat, bump: nat)
    requires m.slotSize > 0 && bump <= cap <= 4096 && m.bumpOffset == bump * m.slotSize && m.bumpEnd == cap * m.slotSize
    ensures VirginSlots(m) == cap - bump
  {
    BumpArith(cap, bump, m.slotSize);
  }

  /** The check passes on every page in every quiescent state of every run. */
  lemma QuiescentPasses(m: Meta, mem: Words, p: Page)
    requires Reachable(p) && p.debug && p.ops == map[] && Represents(m, mem, p)
    ensures PageOk(m, mem)
  {
    ReachableInv(p);
    InvPasses(m, mem, p);
  }

  lemma InvPasses(m: Meta, mem: Words, p: Page)
    requires PageInv(p) && p.debug && p.ops == map[] && Represents(m, mem, p)
    ensures PageOk(m, mem)
  {
    var v :| Inv(p, v);
    QuietNumbers(p, v);
    LocalGood(m, mem, p, v);
    BitsAreLive(m, mem, p, v);
    BumpExact(m, p.cap, p.bump);
    Passes(m, mem, Addrs(m, v.local), p.live);
  }

  lemma QuietNumbers(p: Page, v: View)
    requires Inv(p, v) && p.ops == map[]
    ensures p.used == |p.live| && p.localCount == |v.local| && p.bump <= p.cap && |v.local| <= p.cap
    ensures p.used + p.localCount + p.remoteCount + (p.cap - p.bump) == p.cap
  {
    QuiescentExact(p, v);
  }

  lemma Passes(m: Meta, mem: Words, s: seq<nat>, live: set<nat>)
    requires Plausible(m) && ListAt(mem, m.localFree, s) && AllGood(m, s) && |s| == m.localCount <= m.cap
    requires SetBelow(m.bits, 8 * ((m.cap + 7) / 8)) == live && m.used == |live|
    requires m.used + m.localCount + m.remoteCount + VirginSlots(m) == m.cap
    ensures PageOk(m, mem)
  {
    assert GoodList(m, mem, s);
    NoCarry(m.used + m.localCount + m.remoteCount, VirginSlots(m), m.cap);
  }

  lemma NoCarry(x: nat, n: nat, cap: nat)
    requires x + n == cap < COUNTER_MOD
    ensures Add16(x, n) == cap
  {
  }

  // ---- what is not in order is reported ----

  /** Whatever single number of a page that passes is changed, the check reports it: `used`, the length of the local
      list, the number of remote frees, or the bump offset, by any number of slots. */
  lemma NumberReported(m: Meta, mem: Words, m': Meta)
    requires Plausible(m) && PageOk(m, mem) && Plausible(m') && m' != m
    requires || m' == m.(used := m'.used) || m' == m.(localCount := m'.localCount)
             || m' == m.(remoteCount := m'.remoteCount)
             || (m' == m.(bumpOffset := m'.bumpOffset) && VirginSlots(m') != VirginSlots(m))
    ensures !PageOk(m', mem)
  {
    if m'.localCount != m.localCount { LocalReported(m, mem, m'); }
    else if m'.used == m.used { AccountReported(m, mem, m'); }
  }

  lemma LocalReported(m: Meta, mem: Words, m': Meta)
    requires Plausible(m) && PageOk(m, mem) && Plausible(m')
    requires m'.localFree == m.localFree && m'.localCount != m.localCount
    ensures !PageOk(m', mem)
  {
    var s :| GoodList(m, mem, s);
    forall s' | ListAt(mem, m.localFree, s') ensures |s'| == |s| { ListUnique(mem, m.localFree, s, s'); }
  }

  lemma AccountReported(m: Meta, mem: Words, m': Meta)
    requires Plausible(m) && PageOk(m, mem) && Plausible(m') && m'.cap == m.cap
    requires m'.used == m.used && m'.localCount == m.localCount
    requires (m'.remoteCount == m.remoteCount) != (VirginSlots(m') == VirginSlots(m))
    ensures !PageOk(m', mem)
  {
    AccountDiffers(m.used + m.localCount, m.remoteCount, VirginSlots(m), m'.remoteCount, VirginSlots(m'));
  }

  lemma AccountDiffers(x: nat, r: nat, n: nat, r': nat, n': nat)
    requires r < COUNTER_MOD && n < COUNTER_MOD && r' < COUNTER_MOD && n' < COUNTER_MOD && (r == r') != (n == n')
    ensures Add16(x + r, n) != Add16(x + r', n')
  {
    Diffs(x + r + n, x + r' + n');
  }

  lemma Diffs(x: nat, y: nat)
    requires x != y && x - y < COUNTER_MOD && y - x < COUNTER_MOD
    ensures x % COUNTER_MOD != y % COUNTER_MOD
  {
  }

  /** The bitmap with the bit of slot `k` the other way round. */
  function Flipped(bits: seq<bv8>, k: nat): seq<bv8>
    requires k / 8 < |bits|
  {
    var byte := bits[k / 8];
    bits[k / 8 := if BitAt(bits, k) then byte & !Mask(k % 8) else byte | Mask(k % 8)]
  }

  /** And so is the bit of one slot that is set or cleared alone. */
  lemma BitReported(m: Meta, mem: Words, k: nat)
    requires Plausible(m) && PageOk(m, mem) && k < m.cap
    ensures !PageOk(m.(bits := Flipped(m.bits, k)), mem)
  {
    FlipCounts(m.bits, k, 8 * ((m.cap + 7) / 8));
  }

  lemma FlipCounts(bits: seq<bv8>, k: nat, n: nat)
    requires k / 8 < |bits| && k < n <= 8 * |bits|
    ensures |SetBelow(Flipped(bits, k), n)| != |SetBelow(bits, n)|
  {
    if BitAt(bits, k) { OneBitOff(bits, k, n); } else { OneBitOn(bits, k, n); }
  }

  lemma OneBitOn(bits: seq<bv8>, k: nat, n: nat)
    requires k / 8 < |bits| && k < n <= 8 * |bits|
    ensures SetBelow(bits[k / 8 := bits[k / 8] | Mask(k % 8)], n) == SetBelow(bits, n) + {k}
  {
    OrMarks(bits, k);
    var after := bits[k / 8 := bits[k / 8] | Mask(k % 8)];
    forall j: nat | j < n ensures BitAt(after, j) <==> j in SetBelow(after, 8 * |bits|) {}
    forall j: nat | j < n ensures BitAt(bits, j) <==> j in SetBelow(bits, 8 * |bits|) {}
  }

  lemma OneBitOff(bits: seq<bv8>, k: nat, n: nat)
    requires k / 8 < |bits| && k < n <= 8 * |bits|
    ensures SetBelow(bits[k / 8 := bits[k / 8] & !Mask(k % 8)], n) == SetBelow(bits, n) - {k}
  {
    AndUnmarks(bits, k);
    var after := bits[k / 8 := bits[k / 8] & !Mask(k % 8)];
    forall j: nat | j < n ensures BitAt(after, j) <==> j in SetBelow(after, 8 * |bits|) {}
    forall j: nat | j < n ensures BitAt(bits, j) <==> j in SetBelow(bits, 8 * |bits|) {}
  }

  // ---- every page has such metadata, whatever its clients wrote ----

  lemma {:induction false} BitsOf(marked: set<nat>, n: nat) returns (bits: seq<bv8>)
    requires forall k | k in marked :: k < 8 * n
    ensures |bits| == n && SetBelow(bits, 8 * n) == marked
    decreases |marked|
  {
    if marked == {} {
      bits := seq(n, _ => 0);
      forall k: nat | k < 8 * n ensures !BitAt(bits, k) {}
    } else {
      var k :| k in marked;
      var rest := BitsOf(marked - {k}, n);
      OrMarks(rest, k);
      bits := rest[k / 8 := rest[k / 8] | Mask(k % 8)];
    }
  }

  /** Memory that holds the links of the free slots, and `words` everywhere else. */
  ghost function WithLinks(m: Meta, p: Page, words: Words): Words
    requires m.slotSize > 0
  {
    (a: nat) =>
      if a >= m.start && (a - m.start) % m.slotSize == 0 && FreeSlot(p, (a - m.start) / m.slotSize)
      then AddrOf(m, Fetch(p.link, (a - m.start) / m.slotSize))
      else words(a)
  }

  predicate FreeSlot(p: Page, k: nat) { k < p.bump && k !in p.live }

  lemma LinksAt(m: Meta, p: Page, words: Words, k: nat)
    requires m.slotSize > 0
    ensures WithLinks(m, p, words)(SlotAddr(m.start, m.slotSize, k)) ==
      if FreeSlot(p, k) then AddrOf(m, Fetch(p.link, k)) else words(SlotAddr(m.start, m.slotSize, k))
  {
    Residue(k * m.slotSize, k, 0, m.slotSize);
  }

  /** Every page of every run, at any address and for any slot size, is represented; and its live slots may hold
      any words at all. */
  lemma EveryPageShown(p: Page, start: nat, size: nat, words: Words) returns (m: Meta, mem: Words)
    requires PageInv(p) && p.debug && start > 0 && size > 0
    ensures Represents(m, mem, p) && m.start == start && m.slotSize == size && m.inUse
    ensures forall k: nat | k in p.live :: mem(SlotAddr(start, size, k)) == words(SlotAddr(start, size, k))
  {
    var v :| Inv(p, v);
    var bits := MarkedBits(p, v);
    var head := match p.localHead case Null => 0 case At(k) => SlotAddr(start, size, k);
    m := Meta(start, size, p.cap, p.used, head, p.localCount, p.remoteCount, p.bump * size, p.cap * size, bits, true);
    mem := WithLinks(m, p, words);
    forall k: nat ensures mem(SlotAddr(m.start, m.slotSize, k)) ==
      if FreeSlot(p, k) then AddrOf(m, Fetch(p.link, k)) else words(SlotAddr(m.start, m.slotSize, k))
    {
      LinksAt(m, p, words, k);
    }
  }

  lemma MarkedBits(p: Page, v: View) returns (bits: seq<bv8>)
    requires Inv(p, v) && p.debug
    ensures |bits| == 512 && forall k: nat | k < 8 * |bits| :: BitAt(bits, k) <==> k in p.bitmap
  {
    forall k | k in p.bitmap ensures k < 4096 { if k < p.cap { assert SlotOk(p, v, k); } }
    bits := BitsOf(p.bitmap, 512);
    forall k: nat | k < 8 * |bits| ensures BitAt(bits, k) <==> k in p.bitmap {
      assert k in SetBelow(bits, 8 * 512) <==> k in p.bitmap;
    }
  }
}
