/** Whole operations on a page, run by one thread while no other is inside one: what a caller sees of
    the allocation and free paths when calls do not overlap. */
module PageSolo {
  import opened Basics
  import opened PageProtocol
  import opened PageInvariant
  import opened PageSteps
  import opened PageRuns

  /** A release-build page with no operation in progress. */
  ghost predicate Quiet(p: Page) {
    PageInv(p) && p.ops == map[] && !p.debug && !p.aborted && p.lock == None
  }

  /** Only thread `t` is inside an operation, at position `pc`. */
  ghost predicate Alone(p: Page, t: Tid, pc: PC) {
    PageInv(p) && p.ops == map[t := pc] && !p.debug && !p.aborted
  }

  /** What an operation leaves alone, whoever runs it. */
  predicate SameButSlots(p: Page, q: Page) {
    && q.cap == p.cap && q.tagMod == p.tagMod && q.debug == p.debug && q.aborted == p.aborted && q.exited == p.exited
    && q.owner == p.owner && q.cached == p.cached && |q.link| == |p.link|
  }

  /** A position tells where the thread's slot is. */
  lemma PcFacts(p: Page, t: Tid, pc: PC)
    requires Alone(p, t, pc)
    ensures p.cap == |p.link| <= 4096 && p.bump <= p.cap && t !in p.exited
    ensures OwnerPc(pc) ==> p.owner == Some(t)
    ensures Locked(pc) ==> p.lock == Some(t)
    ensures !Locked(pc) ==> p.lock == None
    ensures pc.Popping? ==> pc.slot < p.bump && pc.slot !in p.live
    ensures pc.Bumping? || pc.SlowBumping? ==> pc.slot == p.bump < p.cap && pc.slot !in p.live
    ensures HeldSlot(pc).Some? ==> HeldSlot(pc).value < p.bump && HeldSlot(pc).value !in p.live
    ensures pc.Walking? ==> pc.count < p.cap
    ensures pc.Splicing? ==> pc.tail < p.cap && Load(p, pc.tail) == Null == p.localHead
    ensures pc.Subtracting? ==> p.localHead.At?
  {
    var v :| Inv(p, v);
    assert ThreadOk(p, v, t);
    if pc.Popping? { assert pc.slot in v.local && SlotOk(p, v, pc.slot); }
    if pc.Bumping? || pc.SlowBumping? { assert SlotOk(p, v, pc.slot); }
    if HeldSlot(pc).Some? { assert SlotOk(p, v, HeldSlot(pc).value); }
    if pc.Walking? { CollShort(p, v); }
    if pc.Splicing? {
      assert v.coll[pc.count - 1] in v.coll && SlotOk(p, v, pc.tail);
      assert Fetch(p.link, v.coll[pc.count - 1]) == After(v.coll, pc.count - 1);
    }
  }

  lemma QuietFacts(p: Page)
    requires Quiet(p)
    ensures p.cap == |p.link| <= 4096 && p.bump <= p.cap
    ensures forall k | k in p.live :: k < p.bump
    ensures forall t | t in p.cached :: p.owner == Some(t) && t !in p.exited
  {
    var v :| Inv(p, v);
    forall k | k in p.live ensures k < p.bump { assert SlotOk(p, v, k); }
  }

  // ---- the steps of a thread on its own ----

  lemma CountUsedSolo(p: Page, t: Tid, k: nat, path: Path)
    requires Alone(p, t, Got(k, path))
    ensures Alone(DoCountUsed(p, t), t, Counted(k, path))
  {
    var v :| Inv(p, v);
    CountUsedKeeps(p, v, t);
  }

  lemma MarkSolo(p: Page, t: Tid, k: nat, path: Path)
    requires Alone(p, t, Counted(k, path))
    ensures Alone(DoMark(p, t), t, Marked(path))
  {
    var v :| Inv(p, v);
    MarkKeeps(p, v, t);
  }

  lemma FastStatSolo(p: Page, t: Tid)
    requires Alone(p, t, Marked(Fast))
    ensures Quiet(DoFastStat(p, t))
  {
    var v :| Inv(p, v);
    assert ThreadOk(p, v, t);
    FastStatKeeps(p, v, t);
  }

  lemma PopWriteSolo(p: Page, t: Tid, k: nat, next: Ptr)
    requires Alone(p, t, Popping(k, next))
    ensures Alone(DoPopWrite(p, t), t, Got(k, Fast))
  {
    var v :| Inv(p, v);
    PopWriteKeeps(p, v, t);
  }

  lemma BumpWriteSolo(p: Page, t: Tid, k: nat)
    requires Alone(p, t, Bumping(k))
    ensures Alone(DoBumpWrite(p, t), t, Got(k, Fast))
  {
    var v :| Inv(p, v);
    BumpWriteKeeps(p, v, t);
  }

  lemma SlowWriteSolo(p: Page, t: Tid, k: nat)
    requires Alone(p, t, SlowBumping(k))
    ensures Alone(DoSlowWrite(p, t), t, Got(k, Slow))
  {
    var v :| Inv(p, v);
    SlowWriteKeeps(p, v, t);
  }

  lemma SlowStatSolo(p: Page, t: Tid)
    requires Alone(p, t, Marked(Slow))
    ensures Alone(DoSlowStat(p, t), t, Claiming)
  {
    var v :| Inv(p, v);
    SlowStatKeeps(p, v, t);
  }

  lemma ClaimSolo(p: Page, t: Tid)
    requires Alone(p, t, Claiming)
    ensures Quiet(DoClaim(p, t)) && p.owner != Some(t)
  {
    var v :| Inv(p, v);
    assert ThreadOk(p, v, t);
    ClaimKeeps(p, v, t);
  }

  lemma SkipClaimSolo(p: Page, t: Tid)
    requires Alone(p, t, Claiming)
    ensures Quiet(DoSkipClaim(p, t))
  {
    var v :| Inv(p, v);
    SkipClaimKeeps(p, v, t);
  }

  lemma SlowTestSolo(p: Page, t: Tid)
    requires Quiet(p) && p.owner == None && t !in p.exited
    ensures Alone(DoSlowTest(p, t), t, SlowTested)
  {
    var v :| Inv(p, v);
    SlowTestKeeps(p, v, t);
  }

  lemma SlowReadSolo(p: Page, t: Tid)
    requires Alone(p, t, SlowTested) && p.bump < p.cap
    ensures Alone(DoSlowRead(p, t), t, SlowBumping(p.bump))
  {
    var v :| Inv(p, v);
    SlowReadKeeps(p, v, t);
  }

  lemma FastTrySolo(p: Page, t: Tid)
    requires Quiet(p) && t in p.cached
    ensures Alone(DoFastTry(p, t), t, Stage(p))
  {
    var v :| Inv(p, v);
    FastTryKeeps(p, v, t);
  }

  lemma CollectLoadSolo(p: Page, t: Tid)
    requires Alone(p, t, Collecting)
    ensures Alone(DoCollectLoad(p, t), t, if p.head.ptr.Null? then Dropping else CollectLoaded(p.head))
  {
    var v :| Inv(p, v);
    CollectLoadKeeps(p, v, t);
  }

  lemma CollectCasSolo(p: Page, t: Tid)
    requires Alone(p, t, CollectLoaded(p.head))
    ensures p.head.ptr.At? && Alone(DoCollectCas(p, t), t, Walking(p.head.ptr.slot, p.head.ptr.slot, 0))
  {
    var v :| Inv(p, v);
    assert ThreadOk(p, v, t);
    CollectCasKeeps(p, v, t);
  }

  lemma WalkSolo(p: Page, t: Tid, pc: PC)
    requires Alone(p, t, pc) && pc.Walking? && Load(p, pc.cur).At?
    ensures Alone(DoWalk(p, t), t, Walking(pc.list, Load(p, pc.cur).slot, Add16(pc.count, 1)))
  {
    var v :| Inv(p, v);
    WalkKeeps(p, v, t);
  }

  lemma WalkEndSolo(p: Page, t: Tid, pc: PC)
    requires Alone(p, t, pc) && pc.Walking? && Load(p, pc.cur).Null?
    ensures Alone(DoWalkEnd(p, t), t, Splicing(pc.list, pc.cur, Add16(pc.count, 1)))
  {
    var v :| Inv(p, v);
    WalkEndKeeps(p, v, t);
  }

  lemma SpliceSolo(p: Page, t: Tid, pc: PC)
    requires Alone(p, t, pc) && pc.Splicing?
    ensures Alone(DoSplice(p, t), t, Subtracting(pc.count))
  {
    var v :| Inv(p, v);
    SpliceKeeps(p, v, t);
  }

  lemma SubtractSolo(p: Page, t: Tid, n: nat)
    requires Alone(p, t, Subtracting(n))
    ensures p.localHead.At? && Alone(DoSubtract(p, t), t, Popping(p.localHead.slot, Load(p, p.localHead.slot)))
  {
    var v :| Inv(p, v);
    assert ThreadOk(p, v, t);
    SubtractKeeps(p, v, t);
  }

  lemma DropSolo(p: Page, t: Tid)
    requires Alone(p, t, Dropping)
    ensures Quiet(DoDrop(p, t))
  {
    var v :| Inv(p, v);
    assert ThreadOk(p, v, t);
    DropKeeps(p, v, t);
  }

  lemma FreeUncheckedSolo(p: Page, t: Tid, k: nat)
    requires Quiet(p) && k in p.live && t !in p.exited
    ensures Alone(DoFreeUnchecked(p, t, k), t, Freeing(k))
  {
    var v :| Inv(p, v);
    FreeUncheckedKeeps(p, v, t, k);
  }

  lemma OwnerLoadSolo(p: Page, t: Tid, k: nat)
    requires Alone(p, t, Freeing(k))
    ensures Alone(DoOwnerLoad(p, t), t, if p.owner == Some(t) then LocalFree(k) else RemoteFree(k))
  {
    var v :| Inv(p, v);
    OwnerLoadKeeps(p, v, t);
  }

  lemma LocalLinkSolo(p: Page, t: Tid, k: nat)
    requires Alone(p, t, LocalFree(k))
    ensures Alone(DoLocalLink(p, t), t, LocalLinked(k))
  {
    var v :| Inv(p, v);
    LocalLinkKeeps(p, v, t);
  }

  lemma LocalPushSolo(p: Page, t: Tid, k: nat)
    requires Alone(p, t, LocalLinked(k))
    ensures Alone(DoLocalPush(p, t), t, LocalPushed)
  {
    var v :| Inv(p, v);
    LocalPushKeeps(p, v, t);
  }

  lemma RemoteLoadSolo(p: Page, t: Tid, k: nat)
    requires Alone(p, t, RemoteFree(k))
    ensures Alone(DoRemoteLoad(p, t), t, RemoteLoaded(k, p.head))
  {
    var v :| Inv(p, v);
    RemoteLoadKeeps(p, v, t);
  }

  lemma RemoteLinkSolo(p: Page, t: Tid, k: nat)
    requires Alone(p, t, RemoteLoaded(k, p.head))
    ensures Alone(DoRemoteLink(p, t), t, RemoteLinked(k, p.head))
  {
    var v :| Inv(p, v);
    RemoteLinkKeeps(p, v, t);
  }

  lemma RemoteCasSolo(p: Page, t: Tid, k: nat)
    requires Alone(p, t, RemoteLinked(k, p.head))
    ensures Alone(DoRemoteCas(p, t), t, RemotePushed)
  {
    var v :| Inv(p, v);
    RemoteCasKeeps(p, v, t);
  }

  lemma RemoteCountSolo(p: Page, t: Tid)
    requires Alone(p, t, RemotePushed)
    ensures Alone(DoRemoteCount(p, t), t, RemoteCounted)
  {
    var v :| Inv(p, v);
    RemoteCountKeeps(p, v, t);
  }

  lemma UsedSubSolo(p: Page, t: Tid, pc: PC)
    requires Alone(p, t, pc) && (pc.LocalPushed? || pc.RemoteCounted?)
    ensures Alone(DoUsedSub(p, t), t, FreeStat(pc.LocalPushed?))
  {
    var v :| Inv(p, v);
    UsedSubKeeps(p, v, t);
  }

  lemma StatFreeSolo(p: Page, t: Tid, local: bool)
    requires Alone(p, t, FreeStat(local))
    ensures Quiet(DoStatFree(p, t))
  {
    var v :| Inv(p, v);
    StatFreeKeeps(p, v, t);
  }

  /** A page with every slot virgin. */
  function Blank(cap: nat): Page {
    Page(cap, COUNTER_MOD, false, None, 0, Null, 0, Word(Null, 0), 0, 0, seq(cap, _ => Null), {}, {}, {}, {},
         map[], None, false)
  }

  lemma BlankQuiet(cap: nat)
    requires cap <= 4096
    ensures Quiet(Blank(cap))
  {
    var p := Blank(cap);
    var v := View([], [], [], seq(cap, _ => Virgin));
    assert UsedPending(p.ops) == {} && Uncounted(p.ops) == {};
    forall k | 0 <= k < p.cap ensures SlotOk(p, v, k) {}
    assert Inv(p, v);
  }

  // ---- allocation ----

  /** The rest of an allocation once the slot is taken. */
  function HandOver(p: Page, t: Tid, k: nat, path: Path): (q: Page)
    requires Alone(p, t, Got(k, path))
    ensures Alone(q, t, Marked(path)) && SameButSlots(p, q)
    ensures q.live == p.live + {k} && q.bump == p.bump && q.link == p.link
  {
    CountUsedSolo(p, t, k, path);
    var p1 := DoCountUsed(p, t);
    MarkSolo(p1, t, k, path);
    DoMark(p1, t)
  }

  /** The owner pops or bumps, as it has read it can. */
  function Take(p: Page, t: Tid, pc: PC): (q: Page)
    requires Alone(p, t, pc) && (pc.Popping? || pc.Bumping?)
    ensures Quiet(q) && SameButSlots(p, q) && q.link == p.link
    ensures pc.slot !in p.live && q.live == p.live + {pc.slot}
    ensures pc.Bumping? ==> pc.slot == p.bump && q.bump == p.bump + 1
    ensures pc.Popping? ==> pc.slot < p.bump == q.bump
  {
    PcFacts(p, t, pc);
    if pc.Popping? then
      PopWriteSolo(p, t, pc.slot, pc.next);
      var q := HandOver(DoPopWrite(p, t), t, pc.slot, Fast);
      FastStatSolo(q, t);
      DoFastStat(q, t)
    else
      BumpWriteSolo(p, t, pc.slot);
      var q := HandOver(DoBumpWrite(p, t), t, pc.slot, Fast);
      FastStatSolo(q, t);
      DoFastStat(q, t)
  }

  /** The walk along the collected list. */
  function Walked(p: Page, t: Tid, pc: PC): (r: (Page, PC))
    requires Alone(p, t, pc) && pc.Walking?
    ensures Alone(r.0, t, r.1) && r.1.Splicing? && SameButSlots(p, r.0)
    ensures r.0.link == p.link && r.0.live == p.live && r.0.bump == p.bump
    decreases p.cap - pc.count
  {
    PcFacts(p, t, pc);
    if Load(p, pc.cur).At? then
      WalkSolo(p, t, pc);
      Walked(DoWalk(p, t), t, Walking(pc.list, Load(p, pc.cur).slot, Add16(pc.count, 1)))
    else
      WalkEndSolo(p, t, pc);
      (DoWalkEnd(p, t), Splicing(pc.list, pc.cur, Add16(pc.count, 1)))
  }

  /** Collecting a stack that is not empty. */
  function CollectAll(p: Page, t: Tid): (r: (Page, PC))
    requires Alone(p, t, Collecting) && p.head.ptr.At?
    ensures Alone(r.0, t, r.1) && r.1.Popping? && SameButSlots(p, r.0)
    ensures r.0.link == p.link && r.0.live == p.live && r.0.bump == p.bump
  {
    CollectLoadSolo(p, t);
    var p1 := DoCollectLoad(p, t);
    CollectCasSolo(p1, t);
    var (p2, pc) := Walked(DoCollectCas(p1, t), t, Walking(p.head.ptr.slot, p.head.ptr.slot, 0));
    Spliced(p2, t, pc)
  }

  /** Splicing the collected list in front of the local one. */
  function Spliced(p: Page, t: Tid, pc: PC): (r: (Page, PC))
    requires Alone(p, t, pc) && pc.Splicing?
    ensures Alone(r.0, t, r.1) && r.1.Popping? && SameButSlots(p, r.0)
    ensures r.0.link == p.link && r.0.live == p.live && r.0.bump == p.bump
  {
    PcFacts(p, t, pc);
    SpliceSolo(p, t, pc);
    var p1 := DoSplice(p, t);
    SubtractSolo(p1, t, pc.count);
    (DoSubtract(p1, t), Popping(p1.localHead.slot, Load(p1, p1.localHead.slot)))
  }

  datatype Outcome = Slot(page: Page, slot: nat, virgin: bool) | Full(page: Page)

  /** The fast path of slab_alloc_inner: local list, then bump, then remote frees; a page with none of
      them is dropped. */
  function TryCached(p: Page, t: Tid): (r: Outcome)
    requires Quiet(p) && t in p.cached
    ensures Quiet(r.page) && r.page.link == p.link
    ensures r.Slot? ==>
      && SameButSlots(p, r.page) && r.slot !in p.live && r.page.live == p.live + {r.slot}
      && (if r.virgin then r.slot == p.bump && r.page.bump == p.bump + 1 else r.slot < p.bump == r.page.bump)
    ensures r.Full? ==>
      SameButSlots(p.(cached := p.cached - {t}), r.page) && r.page.live == p.live && r.page.bump == p.bump
  {
    FastTrySolo(p, t);
    var p1, pc := DoFastTry(p, t), Stage(p);
    if pc.Popping? || pc.Bumping? then
      Slot(Take(p1, t, pc), pc.slot, pc.Bumping?)
    else if p1.head.ptr.At? then
      var (p2, pop) := CollectAll(p1, t);
      Slot(Take(p2, t, pop), pop.slot, false)
    else
      CollectLoadSolo(p1, t);
      var p2 := DoCollectLoad(p1, t);
      DropSolo(p2, t);
      Full(DoDrop(p2, t))
  }

  /** The rest of a slow-path allocation, from the bump under the arena lock to the ownership claim,
      which a thread without thread-local data skips. */
  function SlowAlloc(p: Page, t: Tid, claim: bool): (q: Page)
    requires Alone(p, t, SlowBumping(p.bump)) && p.owner == None
    ensures Quiet(q) && SameButSlots(p.(owner := q.owner, cached := q.cached), q) && q.link == p.link
    ensures p.bump < p.cap && q.bump == p.bump + 1 && p.bump !in p.live && q.live == p.live + {p.bump}
    ensures if claim then q.owner == Some(t) && q.cached == p.cached + {t} else q.owner == None && q.cached == p.cached
  {
    PcFacts(p, t, SlowBumping(p.bump));
    SlowWriteSolo(p, t, p.bump);
    var p1 := HandOver(DoSlowWrite(p, t), t, p.bump, Slow);
    SlowStatSolo(p1, t);
    var p2 := DoSlowStat(p1, t);
    if claim then ClaimSolo(p2, t); DoClaim(p2, t) else SkipClaimSolo(p2, t); DoSkipClaim(p2, t)
  }

  /** A slow-path allocation from an unowned page found in the bin list. */
  function FromUnowned(p: Page, t: Tid, claim: bool): (q: Page)
    requires Quiet(p) && p.owner == None && p.bump < p.cap && t !in p.exited
    ensures Quiet(q) && SameButSlots(p.(owner := q.owner, cached := q.cached), q) && q.link == p.link
    ensures q.bump == p.bump + 1 && p.bump !in p.live && q.live == p.live + {p.bump}
    ensures if claim then q.owner == Some(t) && q.cached == p.cached + {t} else q.owner == None && q.cached == p.cached
  {
    SlowTestSolo(p, t);
    var p1 := DoSlowTest(p, t);
    SlowReadSolo(p1, t);
    SlowAlloc(DoSlowRead(p1, t), t, claim)
  }

  // ---- free ----

  /** The free path: back to the local list for the owner, onto the remote stack otherwise. The one
      word written is the link of the freed slot. */
  function Freed(p: Page, t: Tid, k: nat): (q: Page)
    requires Quiet(p) && k in p.live && t !in p.exited
    ensures Quiet(q) && SameButSlots(p, q) && q.bump == p.bump && q.live == p.live - {k}
    ensures k < |p.link| && q.link == p.link[k := q.link[k]]
  {
    QuietFacts(p);
    FreeUncheckedSolo(p, t, k);
    var p1 := DoFreeUnchecked(p, t, k);
    OwnerLoadSolo(p1, t, k);
    var p2 := DoOwnerLoad(p1, t);
    if p.owner == Some(t) then FreedLocal(p2, t, k) else FreedRemote(p2, t, k)
  }

  function FreedLocal(p: Page, t: Tid, k: nat): (q: Page)
    requires Alone(p, t, LocalFree(k)) && k < |p.link|
    ensures Quiet(q) && SameButSlots(p, q) && q.bump == p.bump && q.live == p.live
    ensures q.link == p.link[k := p.localHead]
  {
    LocalLinkSolo(p, t, k);
    var p1 := DoLocalLink(p, t);
    LocalPushSolo(p1, t, k);
    FreedEnd(DoLocalPush(p1, t), t, LocalPushed)
  }

  function FreedRemote(p: Page, t: Tid, k: nat): (q: Page)
    requires Alone(p, t, RemoteFree(k)) && k < |p.link|
    ensures Quiet(q) && SameButSlots(p, q) && q.bump == p.bump && q.live == p.live
    ensures q.link == p.link[k := p.head.ptr]
  {
    RemoteLoadSolo(p, t, k);
    var p1 := DoRemoteLoad(p, t);
    RemoteLinkSolo(p1, t, k);
    Pushed(DoRemoteLink(p1, t), t, k)
  }

  function Pushed(p: Page, t: Tid, k: nat): (q: Page)
    requires Alone(p, t, RemoteLinked(k, p.head))
    ensures Quiet(q) && SameButSlots(p, q) && q.bump == p.bump && q.live == p.live && q.link == p.link
  {
    RemoteCasSolo(p, t, k);
    var p1 := DoRemoteCas(p, t);
    RemoteCountSolo(p1, t);
    FreedEnd(DoRemoteCount(p1, t), t, RemoteCounted)
  }

  function FreedEnd(p: Page, t: Tid, pc: PC): (q: Page)
    requires Alone(p, t, pc) && (pc.LocalPushed? || pc.RemoteCounted?)
    ensures Quiet(q) && SameButSlots(p, q) && q.bump == p.bump && q.live == p.live && q.link == p.link
  {
    UsedSubSolo(p, t, pc);
    var p1 := DoUsedSub(p, t);
    StatFreeSolo(p1, t, pc.LocalPushed?);
    DoStatFree(p1, t)
  }
}
