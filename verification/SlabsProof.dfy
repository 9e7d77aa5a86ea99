/** Ownership and caching over all runs of the whole slab allocator. */
module SlabsProof {
  import opened Basics
  import opened PageProtocol
  import opened PageInvariant
  import opened PageSteps
  import opened PageEffect
  import opened PageRuns
  import opened PageOwner
  import opened PageNet
  import opened PageIface
  import opened Slabs

  /** A thread in the middle of a slow-path allocation has no page of that bin cached. */
  ghost predicate OpOk(s: Sys, pid: Pid, t: Tid)
    requires pid in s.slabs && t in s.slabs[pid].page.ops
  {
    && t in s.tlds
    && (SlowPc(s.slabs[pid].page.ops[t]) ==>
          s.tlds[t].arena == Some(s.slabs[pid].arena) && s.slabs[pid].bin !in s.tlds[t].binPage)
    && forall i | i in s.slabs && t in s.slabs[i].page.ops :: i == pid
  }

  ghost predicate SlabOk(s: Sys, pid: Pid) {
    && pid in s.slabs
    && var slab := s.slabs[pid];
    && var p := slab.page;
    && p.exited == s.exited
    && slab.arena < |s.arenas|
    && (p.lock.Some? ==> Holds(s, p.lock.value, slab.arena) && p.lock.value in p.ops)
    && (p.owner.Some? ==>
          p.owner.value < s.nextTid && (p.owner.value in s.tlds ==> s.tlds[p.owner.value].arena == Some(slab.arena)))
    && (forall t | t in p.ops :: OpOk(s, pid, t))
    && (forall t | t in p.cached :: t in s.tlds && slab.bin in s.tlds[t].binPage && s.tlds[t].binPage[slab.bin] == pid)
  }

  /** Every cached page is a page of that bin, and knows that it is cached. */
  ghost predicate TldOk(s: Sys, t: Tid) {
    && t in s.tlds
    && var tld := s.tlds[t];
    && t < s.nextTid
    && t !in s.exited
    && (forall b | b in tld.binPage ::
          tld.binPage[b] in s.slabs && s.slabs[tld.binPage[b]].bin == b && t in s.slabs[tld.binPage[b]].page.cached)
    && tld.ops < FLUSH_INTERVAL
    && (match tld.arena
        case Some(a) => a < |s.arenas|
        case None => tld.allocatedBytes == tld.freedBytes == 0)
  }

  ghost predicate SysOk(s: Sys) {
    && !s.crashed
    && (forall pid {:trigger SlabOk(s, pid)} | pid in s.slabs :: SlabOk(s, pid))
    && (forall t {:trigger TldOk(s, t)} | t in s.tlds :: TldOk(s, t))
    && (forall t | t in s.exited :: t < s.nextTid)
  }

  lemma StartOk(arenas: nat)
    ensures SysOk(Start(arenas))
  {
  }

  lemma SpawnKeeps(s: Sys)
    requires SysOk(s)
    ensures SysOk(DoSpawn(s))
  {
    var r := DoSpawn(s);
    forall pid | pid in r.slabs ensures SlabOk(r, pid) {
      assert SlabOk(s, pid);
      forall t | t in r.slabs[pid].page.ops ensures OpOk(r, pid, t) {
        assert OpOk(s, pid, t);
        assert TldOk(s, t);
      }
      forall t | t in r.slabs[pid].page.cached ensures t in s.tlds && t != s.nextTid { assert TldOk(s, t); }
    }
    forall t | t in r.tlds ensures TldOk(r, t) {
      if t in s.tlds { assert TldOk(s, t); }
    }
  }

  lemma AttachKeeps(s: Sys, t: Tid, a: nat)
    requires SysOk(s) && t in s.tlds && s.tlds[t].arena.None? && a < |s.arenas|
    ensures SysOk(s.(tlds := s.tlds[t := s.tlds[t].(arena := Some(a))]))
  {
    var r := s.(tlds := s.tlds[t := s.tlds[t].(arena := Some(a))]);
    forall pid | pid in r.slabs ensures SlabOk(r, pid) {
      assert SlabOk(s, pid);
      forall u | u in r.slabs[pid].page.ops ensures OpOk(r, pid, u) { assert OpOk(s, pid, u); }
    }
    forall u | u in r.tlds ensures TldOk(r, u) { assert TldOk(s, u); }
  }

  /** Taking or releasing the arena lock between two pages. */
  lemma LockKeeps(s: Sys, a: nat, holder: Option<Tid>)
    requires SysOk(s) && (Unlocked(s, a) || exists t :: Holds(s, t, a) && Quiet(s, t))
    ensures SysOk(s.(arenas := SetLock(s.arenas, a, holder)))
  {
    var r := s.(arenas := SetLock(s.arenas, a, holder));
    forall pid | pid in r.slabs ensures SlabOk(r, pid) {
      assert SlabOk(s, pid);
      forall u | u in r.slabs[pid].page.ops ensures OpOk(r, pid, u) { assert OpOk(s, pid, u); }
    }
    forall u | u in r.tlds ensures TldOk(r, u) { assert TldOk(s, u); }
  }

  lemma NewPageKeeps(s: Sys, t: Tid, pid: Pid, bin: nat, size: nat, debug: bool, link: seq<Ptr>)
    requires SysOk(s) && InArena(s, t) && bin !in s.tlds[t].binPage && pid !in s.slabs && 0 < |link| <= 4096
    ensures SysOk(DoNewPage(s, t, pid, bin, size, debug, link))
  {
    var r := DoNewPage(s, t, pid, bin, size, debug, link);
    assert TldOk(s, t);
    assert r.slabs[pid].page == Fresh(TAG_COUNT, debug, link, s.exited, t);
    forall i | i in r.slabs ensures SlabOk(r, i) {
      if i != pid {
        assert SlabOk(s, i);
        forall u | u in r.slabs[i].page.ops ensures OpOk(r, i, u) { assert OpOk(s, i, u); }
      }
    }
    forall u | u in r.tlds ensures TldOk(r, u) { assert TldOk(s, u); }
  }

  lemma ThreadExitKeeps(s: Sys, t: Tid)
    requires SysOk(s) && Between(s, t)
    ensures SysOk(DoThreadExit(s, t))
  {
    var r := DoThreadExit(s, t);
    assert TldOk(s, t);
    forall pid | pid in r.slabs ensures SlabOk(r, pid) {
      assert SlabOk(s, pid);
      var p := s.slabs[pid].page;
      assert r.slabs[pid].page == DoExit(p, t);
      forall u | u in p.ops ensures OpOk(r, pid, u) { assert OpOk(s, pid, u); }
    }
    forall u | u in r.tlds ensures TldOk(r, u) { assert TldOk(s, u); }
  }

  // ---- steps on a page ----

  /** What a page step changes outside the page. */
  ghost predicate OutsideOk(s: Sys, pid: Pid, slab: Slab, a: Action, o: Sys)
    requires !a.ClientWrite?
  {
    && !o.crashed && o.slabs == s.slabs && o.exited == s.exited && o.nextTid == s.nextTid
    && o.tlds.Keys == s.tlds.Keys && |o.arenas| == |s.arenas|
    && (forall u | u in s.tlds && u != a.t :: o.tlds[u] == s.tlds[u])
    && (a.t in s.tlds ==>
          var tld, tld' := s.tlds[a.t], o.tlds[a.t];
          && tld'.arena == tld.arena
          && tld'.ops < FLUSH_INTERVAL
          && (tld.arena.None? ==> tld'.allocatedBytes == tld.allocatedBytes && tld'.freedBytes == tld.freedBytes)
          && tld'.binPage == (if a.Claim? && slab.page.owner.None? then tld.binPage[slab.bin := pid]
                              else if a.Drop? then tld.binPage - {slab.bin} else tld.binPage))
    && (forall i | 0 <= i < |s.arenas| ::
          o.arenas[i].lock == if a.SlowStat? && i == slab.arena then None else s.arenas[i].lock)
  }

  /** A flush never meets a null arena: only threads with an arena own pages. */
  lemma OutsideFrame(s: Sys, pid: Pid, slab: Slab, a: Action)
    requires !s.crashed && !a.ClientWrite? && a.t in s.tlds && s.tlds[a.t].ops < FLUSH_INTERVAL
    requires slab.page.owner == Some(a.t) ==> s.tlds[a.t].arena.Some?
    requires a.Claim? ==> slab.page.owner != Some(a.t)
    requires a.FastStat? || (a.StatFree? && a.t in slab.page.ops && slab.page.ops[a.t] == FreeStat(true)) ==>
      slab.page.owner == Some(a.t)
    ensures OutsideOk(s, pid, slab, a, Outside(s, pid, slab, a))
  {
    if a.FastStat? || a.StatFree? || a.SlowStat? { StatFrame(s, pid, slab, a); }
  }

  lemma StatFrame(s: Sys, pid: Pid, slab: Slab, a: Action)
    requires !s.crashed && !a.ClientWrite? && a.t in s.tlds && s.tlds[a.t].ops < FLUSH_INTERVAL
    requires slab.page.owner == Some(a.t) ==> s.tlds[a.t].arena.Some?
    requires a.Claim? ==> slab.page.owner != Some(a.t)
    requires a.FastStat? || (a.StatFree? && a.t in slab.page.ops && slab.page.ops[a.t] == FreeStat(true)) ==>
      slab.page.owner == Some(a.t)
    requires a.FastStat? || a.StatFree? || a.SlowStat?
    ensures OutsideOk(s, pid, slab, a, Outside(s, pid, slab, a))
  {
  }

  /** The thread of the step is inside no operation on another page. */
  lemma ActorElsewhere(s: Sys, pid: Pid, a: Action, q: Page, i: Pid)
    requires SysOk(s) && pid in s.slabs && Fits(s, pid, s.slabs[pid], a) && !a.ClientWrite?
    requires Iface(s.slabs[pid].page, a, q) && i in s.slabs && i != pid
    ensures a.t in s.tlds && a.t !in s.slabs[i].page.ops
  {
    if !Begins(a) {
      assert SlabOk(s, pid);
      assert OpOk(s, pid, a.t);
    }
  }

  /** What the page the step acts on, and its thread, looked like before. */
  ghost predicate Before(s: Sys, pid: Pid, a: Action)
    requires pid in s.slabs && !a.ClientWrite?
  {
    var slab := s.slabs[pid];
    && SlabOk(s, pid)
    && a.t in s.tlds && a.t !in s.exited && a.t < s.nextTid
    && (a.t in slab.page.ops ==> OpOk(s, pid, a.t))
    && (a.SlowTest? ==>
          Holds(s, a.t, slab.arena) && s.tlds[a.t].arena == Some(slab.arena) && slab.bin !in s.tlds[a.t].binPage)
    && (forall i | i in s.slabs && i != pid :: a.t !in s.slabs[i].page.ops)
  }

  lemma BeforeStep(s: Sys, pid: Pid, a: Action, q: Page)
    requires SysOk(s) && pid in s.slabs && Fits(s, pid, s.slabs[pid], a) && !a.ClientWrite?
    requires Iface(s.slabs[pid].page, a, q)
    ensures Before(s, pid, a)
  {
    assert SlabOk(s, pid) && TldOk(s, a.t);
    forall i | i in s.slabs && i != pid ensures a.t !in s.slabs[i].page.ops { ActorElsewhere(s, pid, a, q, i); }
  }

  lemma ActedOp(s: Sys, pid: Pid, a: Action, q: Page, o: Sys, r: Sys, t: Tid)
    requires pid in s.slabs && !a.ClientWrite? && Before(s, pid, a) && t in q.ops
    requires Iface(s.slabs[pid].page, a, q) && OutsideOk(s, pid, s.slabs[pid], a, o)
    requires r == o.(slabs := s.slabs[pid := s.slabs[pid].(page := q)])
    ensures OpOk(r, pid, t)
  {
    if t != a.t {
      assert t in q.ops - {a.t} && t in s.slabs[pid].page.ops;
      assert OpOk(s, pid, t);
    }
  }

  /** The page the step acts on. */
  lemma ActedSlab(s: Sys, pid: Pid, a: Action, q: Page, o: Sys, r: Sys)
    requires pid in s.slabs && !a.ClientWrite? && Before(s, pid, a)
    requires Iface(s.slabs[pid].page, a, q) && OutsideOk(s, pid, s.slabs[pid], a, o)
    requires r == o.(slabs := s.slabs[pid := s.slabs[pid].(page := q)])
    ensures SlabOk(r, pid)
  {
    var p := s.slabs[pid].page;
    forall t | t in q.ops ensures OpOk(r, pid, t) { ActedOp(s, pid, a, q, o, r, t); }
    forall t | t in q.cached
      ensures t in r.tlds && r.slabs[pid].bin in r.tlds[t].binPage && r.tlds[t].binPage[r.slabs[pid].bin] == pid
    {
      assert t in p.cached || t == a.t;
    }
    if q.lock.Some? && q.lock != Some(a.t) { assert q.lock.value in p.ops - {a.t}; }
  }

  /** Any other page. */
  lemma OtherSlab(s: Sys, pid: Pid, a: Action, q: Page, o: Sys, r: Sys, i: Pid)
    requires pid in s.slabs && !a.ClientWrite? && Before(s, pid, a)
    requires Iface(s.slabs[pid].page, a, q) && OutsideOk(s, pid, s.slabs[pid], a, o)
    requires r == o.(slabs := s.slabs[pid := s.slabs[pid].(page := q)])
    requires i != pid && SlabOk(s, i)
    ensures SlabOk(r, i)
  {
    forall t | t in q.ops && t != a.t ensures t in s.slabs[pid].page.ops { assert t in q.ops - {a.t}; }
    forall t | t in s.slabs[i].page.ops ensures OpOk(r, i, t) {
      assert OpOk(s, i, t);
    }
  }

  lemma ActedTld(s: Sys, pid: Pid, a: Action, q: Page, o: Sys, r: Sys, u: Tid)
    requires SysOk(s) && pid in s.slabs && Fits(s, pid, s.slabs[pid], a) && !a.ClientWrite?
    requires Iface(s.slabs[pid].page, a, q) && OutsideOk(s, pid, s.slabs[pid], a, o)
    requires r == o.(slabs := s.slabs[pid := s.slabs[pid].(page := q)])
    requires u in r.tlds
    ensures TldOk(r, u)
  {
    assert TldOk(s, u);
    assert SlabOk(s, pid);
  }

  lemma ClientKeeps(s: Sys, pid: Pid, k: nat, word: Ptr)
    requires SysOk(s) && pid in s.slabs && k in s.slabs[pid].page.live
    ensures var slab := s.slabs[pid];
            SysOk(s.(slabs := s.slabs[pid := slab.(page := slab.page.(link := Store(slab.page, k, word)))]))
  {
    var p := s.slabs[pid].page;
    var r := s.(slabs := s.slabs[pid := s.slabs[pid].(page := p.(link := Store(p, k, word)))]);
    forall i | i in r.slabs ensures SlabOk(r, i) {
      assert SlabOk(s, i);
      forall t | t in r.slabs[i].page.ops ensures OpOk(r, i, t) { assert OpOk(s, i, t); }
    }
    forall u | u in r.tlds ensures TldOk(r, u) { assert TldOk(s, u); }
  }

  lemma ActThreadKeeps(s: Sys, pid: Pid, a: Action, q: Page)
    requires SysOk(s) && pid in s.slabs && Fits(s, pid, s.slabs[pid], a) && !a.ClientWrite?
    requires Iface(s.slabs[pid].page, a, q)
    ensures SysOk(Outside(s, pid, s.slabs[pid], a).(slabs := s.slabs[pid := s.slabs[pid].(page := q)]))
  {
    var slab := s.slabs[pid];
    var o := Outside(s, pid, slab, a);
    var r := o.(slabs := s.slabs[pid := slab.(page := q)]);
    assert SlabOk(s, pid) && TldOk(s, a.t);
    OutsideFrame(s, pid, slab, a);
    BeforeStep(s, pid, a, q);
    ActedSlab(s, pid, a, q, o, r);
    forall i | i in r.slabs ensures SlabOk(r, i) {
      if i != pid {
        assert SlabOk(s, i);
        OtherSlab(s, pid, a, q, o, r, i);
      }
    }
    forall u | u in r.tlds ensures TldOk(r, u) { ActedTld(s, pid, a, q, o, r, u); }
  }

  // ---- the pages themselves ----

  /** Every page's ownership is in order. */
  ghost predicate PagesOwned(s: Sys) {
    forall pid | pid in s.slabs :: OwnInv(s.slabs[pid].page)
  }

  lemma PutOwned(s: Sys, pid: Pid, q: Page, r: Sys)
    requires PagesOwned(s) && pid in s.slabs && OwnInv(q) && r.slabs == s.slabs[pid := s.slabs[pid].(page := q)]
    ensures PagesOwned(r)
  {
  }

  lemma ActKeeps(s: Sys, pid: Pid, a: Action)
    requires SysOk(s) && PagesOwned(s) && CanAct(s, pid, a)
    ensures SysOk(DoAct(s, pid, a))
  {
    var p := s.slabs[pid].page;
    if a.ClientWrite? {
      ClientKeeps(s, pid, a.slot, a.word);
    } else {
      StepIface(p, a);
      ActThreadKeeps(s, pid, a, Apply(p, a));
    }
  }

  lemma ActOwned(s: Sys, pid: Pid, a: Action)
    requires PagesOwned(s) && CanAct(s, pid, a)
    ensures PagesOwned(DoAct(s, pid, a))
  {
    OwnStep(s.slabs[pid].page, a);
    PutOwned(s, pid, Apply(s.slabs[pid].page, a), DoAct(s, pid, a));
  }

  lemma LeftOwned(p: Page, t: Tid)
    requires OwnInv(p) && Idle(p, t)
    ensures OwnInv(DoExit(p, t))
  {
    forall u | u in p.ops ensures OwnAt(DoExit(p, t), u) { assert OwnAt(p, u); }
  }

  /** Every move, with or without H, keeps pages, caches, locks and threads consistent. */
  lemma MoveKeeps(s: Sys, m: Move)
    requires SysOk(s) && PagesOwned(s) && CanMove(s, m)
    ensures SysOk(Moved(s, m))
  {
    match m
    case Spawn => SpawnKeeps(s);
    case Attach(t, a) => AttachKeeps(s, t, a);
    case Lock(t) => LockKeeps(s, s.tlds[t].arena.value, Some(t));
    case Unlock(t) => LockKeeps(s, s.tlds[t].arena.value, None);
    case NewPage(t, pid, bin, size, debug, link) => NewPageKeeps(s, t, pid, bin, size, debug, link);
    case Act(pid, a) => ActKeeps(s, pid, a);
    case ThreadExit(t) => ThreadExitKeeps(s, t);
  }

  /** Every move, with or without H, keeps the ownership of every page in order. */
  lemma MoveOwned(s: Sys, m: Move)
    requires SysOk(s) && PagesOwned(s) && CanMove(s, m)
    ensures PagesOwned(Moved(s, m))
  {
    match m
    case NewPage(t, pid, bin, size, debug, link) =>
      FreshInitial(s, t, debug, link);
      InitialOwn(Fresh(TAG_COUNT, debug, link, s.exited, t));
    case Act(pid, a) => ActOwned(s, pid, a);
    case ThreadExit(t) =>
      forall pid | pid in s.slabs ensures OwnInv(Left(s.slabs[pid], t).page) {
        if Idle(s.slabs[pid].page, t) { LeftOwned(s.slabs[pid].page, t); }
      }
    case _ =>
  }

  lemma FreshInitial(s: Sys, t: Tid, debug: bool, link: seq<Ptr>)
    requires SysOk(s) && t in s.tlds && 0 < |link| <= 4096
    ensures Initial(Fresh(TAG_COUNT, debug, link, s.exited, t))
  {
    assert TldOk(s, t);
    assert t in Fresh(TAG_COUNT, debug, link, s.exited, t).ops;
  }

  // ---- under H ----

  ghost predicate PagesOk(s: Sys) {
    forall pid | pid in s.slabs :: PageInv(s.slabs[pid].page)
  }

  lemma PageGood(p: Page, a: Action)
    requires PageInv(p) && Ok(p, a)
    ensures PageInv(Apply(p, a))
  {
    var v :| Inv(p, v);
    var w := StepKeeps(p, v, a);
  }

  lemma LeftGood(p: Page, t: Tid)
    requires PageInv(p) && Idle(p, t)
    ensures PageInv(DoExit(p, t))
  {
    var v :| Inv(p, v);
    ExitKeeps(p, v, t);
  }

  lemma PutGood(s: Sys, pid: Pid, q: Page, r: Sys)
    requires PagesOk(s) && pid in s.slabs && PageInv(q) && r.slabs == s.slabs[pid := s.slabs[pid].(page := q)]
    ensures PagesOk(r)
  {
  }

  lemma ActGood(s: Sys, pid: Pid, a: Action)
    requires PagesOk(s) && CanAct(s, pid, a) && ClaimSafe(s.slabs[pid].page, a)
    ensures PagesOk(DoAct(s, pid, a))
  {
    PageGood(s.slabs[pid].page, a);
    PutGood(s, pid, Apply(s.slabs[pid].page, a), DoAct(s, pid, a));
  }

  /** Every move that respects H keeps the page invariant of every page. */
  lemma MoveGood(s: Sys, m: Move)
    requires SysOk(s) && PagesOk(s) && CanMove(s, m) && Safe(s, m)
    ensures PagesOk(Moved(s, m))
  {
    match m
    case NewPage(t, pid, bin, size, debug, link) =>
      FreshInitial(s, t, debug, link);
      InitialInv(Fresh(TAG_COUNT, debug, link, s.exited, t));
    case Act(pid, a) => ActGood(s, pid, a);
    case ThreadExit(t) =>
      forall pid | pid in s.slabs ensures PageInv(Left(s.slabs[pid], t).page) {
        if Idle(s.slabs[pid].page, t) { LeftGood(s.slabs[pid].page, t); }
      }
    case _ =>
  }
}
