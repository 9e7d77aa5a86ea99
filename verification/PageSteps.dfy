/** Each step of the page protocol keeps the invariant. */
module PageSteps {
  import opened Basics
  import opened PageProtocol
  import opened PageInvariant

  // ---- counters ----

  /** 1 when the condition holds. */
  function Bit(b: bool): nat { if b then 1 else 0 }

  function UsedBit(p: Page, t: Tid): nat { Bit(t in p.ops && UsedPc(p.ops[t])) }

  function UncountedBit(p: Page, t: Tid): nat { Bit(t in p.ops && p.ops[t].RemotePushed?) }

  /** The threads in flight, with and without thread `t`. */
  lemma PendingWithout(ops: map<Tid, PC>, t: Tid)
    ensures |UsedPending(ops)| == |UsedPending(ops - {t})| + Bit(t in ops && UsedPc(ops[t]))
    ensures |Uncounted(ops)| == |Uncounted(ops - {t})| + Bit(t in ops && ops[t].RemotePushed?)
  {
    var m := ops - {t};
    if t in ops && UsedPc(ops[t]) {
      assert UsedPending(ops) == UsedPending(m) + {t};
    } else {
      assert UsedPending(ops) == UsedPending(m);
    }
    if t in ops && ops[t].RemotePushed? {
      assert Uncounted(ops) == Uncounted(m) + {t};
    } else {
      assert Uncounted(ops) == Uncounted(m);
    }
  }

  /** Slots under way between the remote stack and the subtraction, as thread `t` sees them. */
  ghost function Transit(p: Page, v: View, t: Tid): int {
    |v.remote| + |v.coll| + Unsubtracted(p) - UncountedBit(p, t)
  }

  lemma Shift16(x: nat, n: int, d: int)
    requires Holds16(x, n)
    ensures Holds16((x + d) % COUNTER_MOD, n + d)
  {
  }

  /** The counters follow the true counts when each is adjusted by the change of its count. */
  lemma CountersKeep(p: Page, v: View, q: Page, w: View, t: Tid, du: int, dl: int, dr: int)
    requires Counters(p, v) && q.ops - {t} == p.ops - {t}
    requires |q.live| + UsedBit(q, t) == |p.live| + UsedBit(p, t) + du
    requires |w.local| == |v.local| + dl
    requires Transit(q, w, t) == Transit(p, v, t) + dr
    requires q.used == (p.used + du) % COUNTER_MOD
    requires q.localCount == (p.localCount + dl) % COUNTER_MOD
    requires q.remoteCount == (p.remoteCount + dr) % COUNTER_MOD
    ensures Counters(q, w)
  {
    PendingWithout(p.ops, t);
    PendingWithout(q.ops, t);
    Shift16(p.used, |p.live| + |UsedPending(p.ops)|, du);
    Shift16(p.localCount, |v.local|, dl);
    Shift16(p.remoteCount, |v.remote| + |v.coll| + Unsubtracted(p) - |Uncounted(p.ops)|, dr);
  }

  lemma QuietCounts(p: Page, v: View, q: Page, t: Tid)
    requires Counters(p, v) && q.ops - {t} == p.ops - {t}
    requires q.live == p.live && UsedBit(q, t) == UsedBit(p, t)
    requires UncountedBit(q, t) == UncountedBit(p, t) && Unsubtracted(q) == Unsubtracted(p)
    requires q.used == p.used && q.localCount == p.localCount && q.remoteCount == p.remoteCount
    ensures Counters(q, v)
  {
    CountersKeep(p, v, q, v, t, 0, 0, 0);
  }

  // ---- slots, lists and threads ----

  /** The step left every shared word that holds slots as it was. */
  ghost predicate SameSlots(p: Page, q: Page) {
    && q.cap == p.cap && q.tagMod == p.tagMod && q.debug == p.debug && q.exited == p.exited && q.owner == p.owner
    && q.bump == p.bump && q.localHead == p.localHead && q.head.ptr == p.head.ptr
    && q.live == p.live && q.link == p.link
  }

  lemma QuietKeeps(p: Page, v: View, q: Page, t: Tid)
    requires Core(p, v) && SameSlots(p, q)
    requires q.ops - {t} == p.ops - {t}
    requires HeldBy(q, t) == HeldBy(p, t)
    requires q.lock == p.lock || p.lock == None || p.lock == Some(t)
    requires t in q.ops ==> ThreadOk(q, v, t)
    requires t in p.ops && CollPc(p.ops[t]) ==> t in q.ops && CollPc(q.ops[t])
    requires q.lock.Some? ==> q.lock.value in q.ops && Locked(q.ops[q.lock.value])
    ensures Core(q, v)
  {
    forall j | 0 <= j < p.cap ensures Unmoved(p, v, q, v, j) {
      assert SlotOk(p, v, j);
    }
    MovesKeep(p, v, q, v, t, {});
    if v.coll != [] && p.owner != Some(t) {
      assert p.owner.value in p.ops - {t};
    }
  }

  lemma CollShort(p: Page, v: View)
    requires Core(p, v)
    ensures |v.coll| <= p.cap
  {
    ChainNoDup(p.link, First(v.coll), v.coll);
    NoDupCount(v.coll);
    CountBelow(Elems(v.coll), p.cap);
  }

  lemma FastTryKeeps(p: Page, v: View, t: Tid)
    requires Inv(p, v) && Idle(p, t) && t in p.cached
    ensures Inv(DoFastTry(p, t), v)
  {
    var q := DoFastTry(p, t);
    QuietKeeps(p, v, q, t);
    QuietCounts(p, v, q, t);
  }

  lemma CountUsedKeeps(p: Page, v: View, t: Tid)
    requires Inv(p, v) && t in p.ops && p.ops[t].Got?
    ensures Inv(DoCountUsed(p, t), v)
  {
    var q := DoCountUsed(p, t);
    assert ThreadOk(p, v, t);
    QuietKeeps(p, v, q, t);
    CountersKeep(p, v, q, v, t, 1, 0, 0);
  }

  lemma FastStatKeeps(p: Page, v: View, t: Tid)
    requires Inv(p, v) && t in p.ops && p.ops[t] == Marked(Fast)
    ensures Inv(DoFastStat(p, t), v)
  {
    var q := DoFastStat(p, t);
    assert ThreadOk(p, v, t);
    QuietKeeps(p, v, q, t);
    QuietCounts(p, v, q, t);
  }

  lemma SlowStatKeeps(p: Page, v: View, t: Tid)
    requires Inv(p, v) && t in p.ops && p.ops[t] == Marked(Slow)
    ensures Inv(DoSlowStat(p, t), v)
  {
    var q := DoSlowStat(p, t);
    assert ThreadOk(p, v, t);
    QuietKeeps(p, v, q, t);
    QuietCounts(p, v, q, t);
  }

  lemma SlowTestKeeps(p: Page, v: View, t: Tid)
    requires Inv(p, v) && Idle(p, t) && p.lock.None? && p.owner.None?
    ensures Inv(DoSlowTest(p, t), v)
  {
    var q := DoSlowTest(p, t);
    QuietKeeps(p, v, q, t);
    QuietCounts(p, v, q, t);
  }

  lemma SlowReadKeeps(p: Page, v: View, t: Tid)
    requires Inv(p, v) && t in p.ops && p.ops[t].SlowTested?
    ensures Inv(DoSlowRead(p, t), v)
  {
    var q := DoSlowRead(p, t);
    assert ThreadOk(p, v, t);
    QuietKeeps(p, v, q, t);
    QuietCounts(p, v, q, t);
  }

  lemma SkipClaimKeeps(p: Page, v: View, t: Tid)
    requires Inv(p, v) && t in p.ops && p.ops[t].Claiming?
    ensures Inv(DoSkipClaim(p, t), v)
  {
    var q := DoSkipClaim(p, t);
    assert ThreadOk(p, v, t);
    QuietKeeps(p, v, q, t);
    QuietCounts(p, v, q, t);
  }

  lemma CollectLoadKeeps(p: Page, v: View, t: Tid)
    requires Inv(p, v) && t in p.ops && p.ops[t].Collecting?
    ensures Inv(DoCollectLoad(p, t), v)
  {
    var q := DoCollectLoad(p, t);
    assert ThreadOk(p, v, t);
    QuietKeeps(p, v, q, t);
    QuietCounts(p, v, q, t);
  }

  lemma CollectRetryKeeps(p: Page, v: View, t: Tid)
    requires Inv(p, v) && t in p.ops && p.ops[t].CollectLoaded?
    ensures Inv(DoCollectRetry(p, t), v)
  {
    var q := DoCollectRetry(p, t);
    assert ThreadOk(p, v, t);
    QuietKeeps(p, v, q, t);
    QuietCounts(p, v, q, t);
  }

  lemma RemoteRetryKeeps(p: Page, v: View, t: Tid)
    requires Inv(p, v) && t in p.ops && p.ops[t].RemoteLinked?
    ensures Inv(DoRemoteRetry(p, t), v)
  {
    var q := DoRemoteRetry(p, t);
    assert ThreadOk(p, v, t);
    QuietKeeps(p, v, q, t);
    QuietCounts(p, v, q, t);
  }

  lemma FreeCallKeeps(p: Page, v: View, t: Tid, k: nat)
    requires Inv(p, v) && Idle(p, t) && p.debug
    ensures Inv(DoFreeCall(p, t, k), v)
  {
    var q := DoFreeCall(p, t, k);
    QuietKeeps(p, v, q, t);
    QuietCounts(p, v, q, t);
  }

  lemma AbortKeeps(p: Page, v: View, t: Tid)
    requires Inv(p, v) && t in p.ops && p.debug
    requires ((p.ops[t].Checking? && p.ops[t].slot !in p.bitmap) || (p.ops[t].Counted? && p.ops[t].slot in p.bitmap))
    ensures Inv(DoAbort(p, t), v)
  {
    var q := DoAbort(p, t);
    assert ThreadOk(p, v, t);
    QuietKeeps(p, v, q, t);
  }

  lemma SubtractKeeps(p: Page, v: View, t: Tid)
    requires Inv(p, v) && t in p.ops && p.ops[t].Subtracting?
    ensures Inv(DoSubtract(p, t), v)
  {
    var q := DoSubtract(p, t);
    assert ThreadOk(p, v, t);
    QuietKeeps(p, v, q, t);
    CountersKeep(p, v, q, v, t, 0, 0, -(p.ops[t].count as int));
  }

  lemma DropKeeps(p: Page, v: View, t: Tid)
    requires Inv(p, v) && t in p.ops && p.ops[t].Dropping?
    ensures Inv(DoDrop(p, t), v)
  {
    var q := DoDrop(p, t);
    assert ThreadOk(p, v, t);
    QuietKeeps(p, v, q, t);
    QuietCounts(p, v, q, t);
  }

  lemma OwnerLoadKeeps(p: Page, v: View, t: Tid)
    requires Inv(p, v) && t in p.ops && p.ops[t].Freeing?
    ensures Inv(DoOwnerLoad(p, t), v)
  {
    var q := DoOwnerLoad(p, t);
    assert ThreadOk(p, v, t);
    QuietKeeps(p, v, q, t);
    QuietCounts(p, v, q, t);
  }

  lemma UsedSubKeeps(p: Page, v: View, t: Tid)
    requires Inv(p, v) && (t in p.ops && (p.ops[t].LocalPushed? || p.ops[t].RemoteCounted?))
    ensures Inv(DoUsedSub(p, t), v)
  {
    var q := DoUsedSub(p, t);
    assert ThreadOk(p, v, t);
    QuietKeeps(p, v, q, t);
    CountersKeep(p, v, q, v, t, -1, 0, 0);
  }

  lemma RemoteLoadKeeps(p: Page, v: View, t: Tid)
    requires Inv(p, v) && t in p.ops && p.ops[t].RemoteFree?
    ensures Inv(DoRemoteLoad(p, t), v)
  {
    var q := DoRemoteLoad(p, t);
    assert ThreadOk(p, v, t);
    QuietKeeps(p, v, q, t);
    QuietCounts(p, v, q, t);
  }

  lemma RemoteCountKeeps(p: Page, v: View, t: Tid)
    requires Inv(p, v) && t in p.ops && p.ops[t].RemotePushed?
    ensures Inv(DoRemoteCount(p, t), v)
  {
    var q := DoRemoteCount(p, t);
    assert ThreadOk(p, v, t);
    QuietKeeps(p, v, q, t);
    CountersKeep(p, v, q, v, t, 0, 0, 1);
  }

  lemma StatFreeKeeps(p: Page, v: View, t: Tid)
    requires Inv(p, v) && t in p.ops && p.ops[t].FreeStat?
    ensures Inv(DoStatFree(p, t), v)
  {
    var q := DoStatFree(p, t);
    assert ThreadOk(p, v, t);
    QuietKeeps(p, v, q, t);
    QuietCounts(p, v, q, t);
  }

  lemma WalkKeeps(p: Page, v: View, t: Tid)
    requires Inv(p, v) && t in p.ops && p.ops[t].Walking? && Load(p, p.ops[t].cur).At?
    ensures Inv(DoWalk(p, t), v)
  {
    var q := DoWalk(p, t);
    assert ThreadOk(p, v, t);
    var pc := p.ops[t];
    CollShort(p, v);
    assert Load(p, pc.cur) == After(v.coll, pc.count);
    assert q.ops[t] == Walking(pc.list, v.coll[pc.count + 1], pc.count + 1);
    QuietKeeps(p, v, q, t);
    QuietCounts(p, v, q, t);
  }

  lemma WalkEndKeeps(p: Page, v: View, t: Tid)
    requires Inv(p, v) && t in p.ops && p.ops[t].Walking? && Load(p, p.ops[t].cur).Null?
    ensures Inv(DoWalkEnd(p, t), v)
  {
    var q := DoWalkEnd(p, t);
    assert ThreadOk(p, v, t);
    var pc := p.ops[t];
    CollShort(p, v);
    assert Load(p, pc.cur) == After(v.coll, pc.count);
    QuietKeeps(p, v, q, t);
    QuietCounts(p, v, q, t);
  }

  lemma BumpWriteMoves(p: Page, v: View, t: Tid)
    requires Inv(p, v) && t in p.ops && p.ops[t].Bumping?
    ensures Core(DoBumpWrite(p, t), Put(v, p.ops[t].slot, Held(t)))
  {
    var q := DoBumpWrite(p, t);
    var w := Put(v, p.ops[t].slot, Held(t));
    assert ThreadOk(p, v, t);
    var k := p.ops[t].slot;
    assert SlotOk(p, v, k);
    MovesKeep(p, v, q, w, t, {k});
  }

  lemma BumpWriteKeeps(p: Page, v: View, t: Tid)
    requires Inv(p, v) && t in p.ops && p.ops[t].Bumping?
    ensures Inv(DoBumpWrite(p, t), Put(v, p.ops[t].slot, Held(t)))
  {
    var q := DoBumpWrite(p, t);
    var w := Put(v, p.ops[t].slot, Held(t));
    assert ThreadOk(p, v, t);
    assert SlotOk(p, v, p.ops[t].slot);
    BumpWriteMoves(p, v, t);
    CountersKeep(p, v, q, w, t, 0, 0, 0);
  }

  lemma SlowWriteMoves(p: Page, v: View, t: Tid)
    requires Inv(p, v) && t in p.ops && p.ops[t].SlowBumping?
    ensures Core(DoSlowWrite(p, t), Put(v, p.ops[t].slot, Held(t)))
  {
    var q := DoSlowWrite(p, t);
    var w := Put(v, p.ops[t].slot, Held(t));
    assert ThreadOk(p, v, t);
    var k := p.ops[t].slot;
    assert SlotOk(p, v, k);
    MovesKeep(p, v, q, w, t, {k});
  }

  lemma SlowWriteKeeps(p: Page, v: View, t: Tid)
    requires Inv(p, v) && t in p.ops && p.ops[t].SlowBumping?
    ensures Inv(DoSlowWrite(p, t), Put(v, p.ops[t].slot, Held(t)))
  {
    var q := DoSlowWrite(p, t);
    var w := Put(v, p.ops[t].slot, Held(t));
    assert ThreadOk(p, v, t);
    assert SlotOk(p, v, p.ops[t].slot);
    SlowWriteMoves(p, v, t);
    CountersKeep(p, v, q, w, t, 0, 0, 0);
  }

  lemma PopWriteMoves(p: Page, v: View, t: Tid)
    requires Inv(p, v) && t in p.ops && p.ops[t].Popping?
    ensures Core(DoPopWrite(p, t), Put(v, p.ops[t].slot, Held(t)).(local := Rest(v.local)))
  {
    var q := DoPopWrite(p, t);
    var w := Put(v, p.ops[t].slot, Held(t)).(local := Rest(v.local));
    assert ThreadOk(p, v, t);
    var k := p.ops[t].slot;
    assert k == v.local[0] && k in v.local;
    assert SlotOk(p, v, k);
    ChainNoDup(p.link, p.localHead, v.local);
    ChainSuffix(p.link, p.localHead, v.local, 1);
    MovesKeep(p, v, q, w, t, {k});
  }

  lemma PopWriteKeeps(p: Page, v: View, t: Tid)
    requires Inv(p, v) && t in p.ops && p.ops[t].Popping?
    ensures Inv(DoPopWrite(p, t), Put(v, p.ops[t].slot, Held(t)).(local := Rest(v.local)))
  {
    var q := DoPopWrite(p, t);
    var w := Put(v, p.ops[t].slot, Held(t)).(local := Rest(v.local));
    assert ThreadOk(p, v, t);
    assert v.local[0] in v.local;
    assert SlotOk(p, v, p.ops[t].slot);
    PopWriteMoves(p, v, t);
    CountersKeep(p, v, q, w, t, 0, -1, 0);
  }

  lemma MarkMoves(p: Page, v: View, t: Tid)
    requires Core(p, v) && t in p.ops && p.ops[t].Counted? && (p.debug ==> p.ops[t].slot !in p.bitmap)
    ensures Core(DoMark(p, t), Put(v, p.ops[t].slot, Live))
  {
    var q := DoMark(p, t);
    var w := Put(v, p.ops[t].slot, Live);
    assert ThreadOk(p, v, t);
    var k := p.ops[t].slot;
    assert SlotOk(p, v, k);
    MovesKeep(p, v, q, w, t, {k});
  }

  lemma MarkKeeps(p: Page, v: View, t: Tid)
    requires Inv(p, v) && t in p.ops && p.ops[t].Counted? && (p.debug ==> p.ops[t].slot !in p.bitmap)
    ensures Inv(DoMark(p, t), Put(v, p.ops[t].slot, Live))
  {
    var q := DoMark(p, t);
    var w := Put(v, p.ops[t].slot, Live);
    assert ThreadOk(p, v, t);
    assert SlotOk(p, v, p.ops[t].slot);
    MarkMoves(p, v, t);
    CountersKeep(p, v, q, w, t, 0, 0, 0);
  }

  lemma CheckMoves(p: Page, v: View, t: Tid)
    requires Inv(p, v) && t in p.ops && p.ops[t].Checking? && p.ops[t].slot in p.bitmap && p.debug
    ensures Core(DoCheck(p, t), Put(v, p.ops[t].slot, Held(t)))
  {
    var q := DoCheck(p, t);
    var w := Put(v, p.ops[t].slot, Held(t));
    assert ThreadOk(p, v, t);
    var k := p.ops[t].slot;
    assert SlotOk(p, v, k);
    MovesKeep(p, v, q, w, t, {k});
  }

  lemma CheckKeeps(p: Page, v: View, t: Tid)
    requires Inv(p, v) && t in p.ops && p.ops[t].Checking? && p.ops[t].slot in p.bitmap && p.debug
    ensures Inv(DoCheck(p, t), Put(v, p.ops[t].slot, Held(t)))
  {
    var q := DoCheck(p, t);
    var w := Put(v, p.ops[t].slot, Held(t));
    assert ThreadOk(p, v, t);
    assert SlotOk(p, v, p.ops[t].slot);
    CheckMoves(p, v, t);
    CountersKeep(p, v, q, w, t, 0, 0, 0);
  }

  lemma FreeUncheckedMoves(p: Page, v: View, t: Tid, k: nat)
    requires Inv(p, v) && Idle(p, t) && !p.debug && k in p.live
    ensures Core(DoFreeUnchecked(p, t, k), Put(v, k, Held(t)))
  {
    var q := DoFreeUnchecked(p, t, k);
    var w := Put(v, k, Held(t));
    assert SlotOk(p, v, k);
    MovesKeep(p, v, q, w, t, {k});
  }

  lemma FreeUncheckedKeeps(p: Page, v: View, t: Tid, k: nat)
    requires Inv(p, v) && Idle(p, t) && !p.debug && k in p.live
    ensures Inv(DoFreeUnchecked(p, t, k), Put(v, k, Held(t)))
  {
    var q := DoFreeUnchecked(p, t, k);
    var w := Put(v, k, Held(t));
    assert SlotOk(p, v, k);
    FreeUncheckedMoves(p, v, t, k);
    CountersKeep(p, v, q, w, t, 0, 0, 0);
  }

  lemma LocalLinkKeeps(p: Page, v: View, t: Tid)
    requires Inv(p, v) && t in p.ops && p.ops[t].LocalFree?
    ensures Inv(DoLocalLink(p, t), v)
  {
    var q := DoLocalLink(p, t);
    assert ThreadOk(p, v, t);
    var k := p.ops[t].slot;
    assert SlotOk(p, v, k);
    ChainFrame(p.link, q.link, p.localHead, v.local);
    ChainFrame(p.link, q.link, p.head.ptr, v.remote);
    ChainFrame(p.link, q.link, First(v.coll), v.coll);
    MovesKeep(p, v, q, v, t, {});
    QuietCounts(p, v, q, t);
  }

  lemma RemoteLinkMoves(p: Page, v: View, t: Tid)
    requires Inv(p, v) && t in p.ops && p.ops[t].RemoteLoaded?
    ensures Core(DoRemoteLink(p, t), v)
  {
    var q := DoRemoteLink(p, t);
    assert ThreadOk(p, v, t);
    var k := p.ops[t].slot;
    assert SlotOk(p, v, k);
    ChainFrame(p.link, q.link, p.localHead, v.local);
    ChainFrame(p.link, q.link, p.head.ptr, v.remote);
    ChainFrame(p.link, q.link, First(v.coll), v.coll);
    MovesKeep(p, v, q, v, t, {});
  }

  lemma RemoteLinkKeeps(p: Page, v: View, t: Tid)
    requires Inv(p, v) && t in p.ops && p.ops[t].RemoteLoaded?
    ensures Inv(DoRemoteLink(p, t), v)
  {
    var q := DoRemoteLink(p, t);
    assert ThreadOk(p, v, t);
    assert SlotOk(p, v, p.ops[t].slot);
    RemoteLinkMoves(p, v, t);
    QuietCounts(p, v, q, t);
  }

  lemma LocalPushMoves(p: Page, v: View, t: Tid)
    requires Inv(p, v) && t in p.ops && p.ops[t].LocalLinked?
    ensures Core(DoLocalPush(p, t), Put(v, p.ops[t].slot, Local).(local := [p.ops[t].slot] + v.local))
  {
    var q := DoLocalPush(p, t);
    var w := Put(v, p.ops[t].slot, Local).(local := [p.ops[t].slot] + v.local);
    assert ThreadOk(p, v, t);
    var k := p.ops[t].slot;
    assert SlotOk(p, v, k);
    ChainPush(p.link, p.localHead, v.local, k);
    MovesKeep(p, v, q, w, t, {k});
  }

  lemma LocalPushKeeps(p: Page, v: View, t: Tid)
    requires Inv(p, v) && t in p.ops && p.ops[t].LocalLinked?
    ensures Inv(DoLocalPush(p, t), Put(v, p.ops[t].slot, Local).(local := [p.ops[t].slot] + v.local))
  {
    var q := DoLocalPush(p, t);
    var w := Put(v, p.ops[t].slot, Local).(local := [p.ops[t].slot] + v.local);
    assert ThreadOk(p, v, t);
    assert SlotOk(p, v, p.ops[t].slot);
    LocalPushMoves(p, v, t);
    CountersKeep(p, v, q, w, t, 0, 1, 0);
  }

  lemma RemoteCasMoves(p: Page, v: View, t: Tid)
    requires Inv(p, v) && t in p.ops && p.ops[t].RemoteLinked? && p.head == p.ops[t].word
    ensures Core(DoRemoteCas(p, t), Put(v, p.ops[t].slot, Remote).(remote := [p.ops[t].slot] + v.remote))
  {
    var q := DoRemoteCas(p, t);
    var w := Put(v, p.ops[t].slot, Remote).(remote := [p.ops[t].slot] + v.remote);
    assert ThreadOk(p, v, t);
    var k := p.ops[t].slot;
    assert SlotOk(p, v, k);
    ChainPush(p.link, p.head.ptr, v.remote, k);
    MovesKeep(p, v, q, w, t, {k});
  }

  lemma RemoteCasKeeps(p: Page, v: View, t: Tid)
    requires Inv(p, v) && t in p.ops && p.ops[t].RemoteLinked? && p.head == p.ops[t].word
    ensures Inv(DoRemoteCas(p, t), Put(v, p.ops[t].slot, Remote).(remote := [p.ops[t].slot] + v.remote))
  {
    var q := DoRemoteCas(p, t);
    var w := Put(v, p.ops[t].slot, Remote).(remote := [p.ops[t].slot] + v.remote);
    assert ThreadOk(p, v, t);
    assert SlotOk(p, v, p.ops[t].slot);
    RemoteCasMoves(p, v, t);
    CountersKeep(p, v, q, w, t, 0, 0, 0);
  }

  lemma CollectCasKeeps(p: Page, v: View, t: Tid)
    requires Inv(p, v) && t in p.ops && p.ops[t].CollectLoaded? && p.head == p.ops[t].word && p.head.ptr.At?
    ensures Inv(DoCollectCas(p, t), v.(remote := [], coll := v.remote, place := Relabel(v.place, Remote, Collected)))
  {
    var q := DoCollectCas(p, t);
    var w := v.(remote := [], coll := v.remote, place := Relabel(v.place, Remote, Collected));
    assert ThreadOk(p, v, t);
    assert v.coll == [] && v.remote != [];
    forall j | 0 <= j < p.cap
      ensures if j in v.remote then SlotOk(q, w, j) else Unmoved(p, v, q, w, j)
    {
      assert SlotOk(p, v, j);
    }
    MovesKeep(p, v, q, w, t, Elems(v.remote));
    CountersKeep(p, v, q, w, t, 0, 0, 0);
  }

  lemma SpliceMoves(p: Page, v: View, t: Tid)
    requires Inv(p, v) && t in p.ops && p.ops[t].Splicing?
    ensures Core(DoSplice(p, t), v.(local := v.coll + v.local, coll := [], place := Relabel(v.place, Collected, Local)))
  {
    var q := DoSplice(p, t);
    var w := v.(local := v.coll + v.local, coll := [], place := Relabel(v.place, Collected, Local));
    assert ThreadOk(p, v, t);
    var s := v.coll;
    assert v.local == [] && w.local == s && s[|s| - 1] in s;
    assert SlotOk(p, v, s[|s| - 1]);
    ChainSplice(p.link, s, p.localHead, v.local);
    ChainFrame(p.link, q.link, p.head.ptr, v.remote);
    forall j | 0 <= j < p.cap
      ensures if j in s then SlotOk(q, w, j) else Unmoved(p, v, q, w, j)
    {
      assert SlotOk(p, v, j);
    }
    MovesKeep(p, v, q, w, t, Elems(s));
  }

  lemma SpliceKeeps(p: Page, v: View, t: Tid)
    requires Inv(p, v) && t in p.ops && p.ops[t].Splicing?
    ensures Inv(DoSplice(p, t), v.(local := v.coll + v.local, coll := [], place := Relabel(v.place, Collected, Local)))
  {
    var q := DoSplice(p, t);
    var w := v.(local := v.coll + v.local, coll := [], place := Relabel(v.place, Collected, Local));
    assert ThreadOk(p, v, t);
    SpliceMoves(p, v, t);
    CountersKeep(p, v, q, w, t, 0, p.ops[t].count, 0);
  }

  lemma ClaimKeeps(p: Page, v: View, t: Tid)
    requires Inv(p, v) && t in p.ops && p.ops[t].Claiming? && ClaimSafe(p, Claim(t))
    ensures Inv(DoClaim(p, t), v)
  {
    var q := DoClaim(p, t);
    assert ThreadOk(p, v, t);
    MovesKeep(p, v, q, v, t, {});
    QuietCounts(p, v, q, t);
  }

  lemma ClientWriteCore(p: Page, v: View, k: nat, word: Ptr)
    requires Core(p, v) && k in p.live
    ensures Core(p.(link := Store(p, k, word)), v)
  {
    var q := p.(link := Store(p, k, word));
    assert SlotOk(p, v, k);
    ChainFrame(p.link, q.link, p.localHead, v.local);
    ChainFrame(p.link, q.link, p.head.ptr, v.remote);
    ChainFrame(p.link, q.link, First(v.coll), v.coll);
    forall j | 0 <= j < q.cap ensures SlotOk(q, v, j) { assert SlotOk(p, v, j); }
    forall u | u in q.ops ensures ThreadOk(q, v, u) { assert ThreadOk(p, v, u); }
  }

  lemma ClientWriteKeeps(p: Page, v: View, k: nat, word: Ptr)
    requires Inv(p, v) && k in p.live
    ensures Inv(p.(link := Store(p, k, word)), v)
  {
    ClientWriteCore(p, v, k, word);
  }

  lemma ExitKeeps(p: Page, v: View, t: Tid)
    requires Inv(p, v) && Idle(p, t)
    ensures Inv(DoExit(p, t), v)
  {
    var q := DoExit(p, t);
    forall j | 0 <= j < q.cap ensures SlotOk(q, v, j) { assert SlotOk(p, v, j); }
    forall u | u in q.ops ensures ThreadOk(q, v, u) { assert ThreadOk(p, v, u); }
  }

  /** Allocation, on the owner's path and under the arena lock. */
  predicate AllocAction(a: Action) {
    || a.FastTry? || a.CountUsed? || a.FastStat? || a.SlowStat? || a.SlowTest? || a.SlowRead? || a.SkipClaim?
    || a.BumpWrite? || a.SlowWrite? || a.PopWrite? || a.Mark? || a.Claim?
  }

  lemma AllocStepKeeps(p: Page, v: View, a: Action) returns (w: View)
    requires Inv(p, v) && Ok(p, a) && AllocAction(a)
    ensures Inv(Apply(p, a), w)
  {
    w := v;
    match a
    case FastTry(t) => FastTryKeeps(p, v, t);
    case CountUsed(t) => CountUsedKeeps(p, v, t);
    case FastStat(t) => FastStatKeeps(p, v, t);
    case SlowStat(t) => SlowStatKeeps(p, v, t);
    case SlowTest(t) => SlowTestKeeps(p, v, t);
    case SlowRead(t) => SlowReadKeeps(p, v, t);
    case SkipClaim(t) => SkipClaimKeeps(p, v, t);
    case BumpWrite(t) => BumpWriteKeeps(p, v, t); w := Put(v, p.ops[t].slot, Held(t));
    case SlowWrite(t) => SlowWriteKeeps(p, v, t); w := Put(v, p.ops[t].slot, Held(t));
    case PopWrite(t) => PopWriteKeeps(p, v, t); w := Put(v, p.ops[t].slot, Held(t)).(local := Rest(v.local));
    case Mark(t) => MarkKeeps(p, v, t); w := Put(v, p.ops[t].slot, Live);
    case Claim(t) => ClaimKeeps(p, v, t);
  }

  /** Collecting the remote frees. */
  predicate CollectAction(a: Action) {
    a.CollectLoad? || a.CollectRetry? || a.Subtract? || a.Drop? || a.Walk? || a.WalkEnd? || a.CollectCas? || a.Splice?
  }

  lemma CollectStepKeeps(p: Page, v: View, a: Action) returns (w: View)
    requires Inv(p, v) && Ok(p, a) && CollectAction(a)
    ensures Inv(Apply(p, a), w)
  {
    w := v;
    match a
    case CollectLoad(t) => CollectLoadKeeps(p, v, t);
    case CollectRetry(t) => CollectRetryKeeps(p, v, t);
    case Subtract(t) => SubtractKeeps(p, v, t);
    case Drop(t) => DropKeeps(p, v, t);
    case Walk(t) => WalkKeeps(p, v, t);
    case WalkEnd(t) => WalkEndKeeps(p, v, t);
    case CollectCas(t) =>
      CollectCasKeeps(p, v, t);
      w := v.(remote := [], coll := v.remote, place := Relabel(v.place, Remote, Collected));
    case Splice(t) =>
      SpliceKeeps(p, v, t);
      w := v.(local := v.coll + v.local, coll := [], place := Relabel(v.place, Collected, Local));
  }

  /** The beginning of a free, and its statistics at the end. */
  predicate FreeAction(a: Action) {
    a.FreeCall? || a.FreeUnchecked? || a.Check? || a.Abort? || a.OwnerLoad? || a.StatFree?
  }

  lemma FreeStepKeeps(p: Page, v: View, a: Action) returns (w: View)
    requires Inv(p, v) && Ok(p, a) && FreeAction(a)
    ensures Inv(Apply(p, a), w)
  {
    w := v;
    var t := a.t;
    if a.FreeCall? {
      FreeCallKeeps(p, v, t, a.slot);
    } else if a.FreeUnchecked? {
      FreeUncheckedKeeps(p, v, t, a.slot);
      w := Put(v, a.slot, Held(t));
    } else if a.Check? {
      assert ThreadOk(p, v, t);
      CheckKeeps(p, v, t);
      w := Put(v, p.ops[t].slot, Held(t));
    } else if a.Abort? {
      AbortKeeps(p, v, t);
    } else if a.OwnerLoad? {
      OwnerLoadKeeps(p, v, t);
    } else {
      StatFreeKeeps(p, v, t);
    }
  }

  /** Putting the freed slot on the local list, or linking it to the remote stack. */
  predicate LinkAction(a: Action) {
    a.LocalLink? || a.LocalPush? || a.RemoteLoad? || a.RemoteLink?
  }

  lemma LinkStepKeeps(p: Page, v: View, a: Action) returns (w: View)
    requires Inv(p, v) && Ok(p, a) && LinkAction(a)
    ensures Inv(Apply(p, a), w)
  {
    w := v;
    match a
    case LocalLink(t) => LocalLinkKeeps(p, v, t);
    case LocalPush(t) =>
      LocalPushKeeps(p, v, t);
      w := Put(v, p.ops[t].slot, Local).(local := [p.ops[t].slot] + v.local);
    case RemoteLoad(t) => RemoteLoadKeeps(p, v, t);
    case RemoteLink(t) => RemoteLinkKeeps(p, v, t);
  }

  /** Pushing the linked slot onto the remote stack, and the counters. */
  predicate PushAction(a: Action) {
    a.RemoteRetry? || a.RemoteCas? || a.RemoteCount? || a.UsedSub?
  }

  lemma PushStepKeeps(p: Page, v: View, a: Action) returns (w: View)
    requires Inv(p, v) && Ok(p, a) && PushAction(a)
    ensures Inv(Apply(p, a), w)
  {
    w := v;
    var t := a.t;
    if a.RemoteRetry? {
      RemoteRetryKeeps(p, v, t);
    } else if a.RemoteCas? {
      RemoteCasKeeps(p, v, t);
      w := Put(v, p.ops[t].slot, Remote).(remote := [p.ops[t].slot] + v.remote);
    } else if a.RemoteCount? {
      RemoteCountKeeps(p, v, t);
    } else {
      UsedSubKeeps(p, v, t);
    }
  }

  /** Every step keeps the invariant. */
  lemma StepKeeps(p: Page, v: View, a: Action) returns (w: View)
    requires Inv(p, v) && Ok(p, a)
    ensures Inv(Apply(p, a), w)
  {
    if AllocAction(a) {
      w := AllocStepKeeps(p, v, a);
    } else if CollectAction(a) {
      w := CollectStepKeeps(p, v, a);
    } else if FreeAction(a) {
      w := FreeStepKeeps(p, v, a);
    } else if LinkAction(a) {
      w := LinkStepKeeps(p, v, a);
    } else if PushAction(a) {
      w := PushStepKeeps(p, v, a);
    } else if a.Exit? {
      w := v;
      ExitKeeps(p, v, a.t);
    } else {
      w := v;
      ClientWriteKeeps(p, v, a.slot, a.word);
    }
  }
}
