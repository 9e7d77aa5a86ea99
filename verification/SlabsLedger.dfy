/** The statistics of every arena balance with the slots its pages have handed out. */
module SlabsLedger {
  import opened Basics
  import opened PageProtocol
  import opened PageInvariant
  import opened PageNet
  import opened PageIface
  import opened PageRuns
  import opened Slabs
  import opened SlabsProof

  /** The sum of the entries with keys below `n`. */
  function Sum(m: map<nat, int>, n: nat): int {
    if n == 0 then 0 else Sum(m, n - 1) + if n - 1 in m then m[n - 1] else 0
  }

  function Entry(m: map<nat, int>, k: nat): int { if k in m then m[k] else 0 }

  /** Changing one entry changes the sum by the difference. */
  lemma {:induction false} SumChange(m: map<nat, int>, m': map<nat, int>, k: nat, n: nat)
    requires k < n && forall i | i != k :: Entry(m, i) == Entry(m', i)
    ensures Sum(m', n) == Sum(m, n) + Entry(m', k) - Entry(m, k)
    decreases n
  {
    assert Entry(m, n - 1) == Entry(m', n - 1) || k == n - 1;
    if k < n - 1 { SumChange(m, m', k, n - 1); } else { SumSame(m, m', k, n - 1); }
  }

  lemma {:induction false} SumSame(m: map<nat, int>, m': map<nat, int>, k: nat, n: nat)
    requires n <= k && forall i | i != k :: Entry(m, i) == Entry(m', i)
    ensures Sum(m', n) == Sum(m, n)
    decreases n
  {
    if n > 0 {
      assert Entry(m, n - 1) == Entry(m', n - 1);
      SumSame(m, m', k, n - 1);
    }
  }

  /** Bytes that a page has handed out, as far as recorded. */
  function Worth(slab: Slab): int { slab.size * Net(slab.page) }

  lemma WorthStep(slab: Slab, q: Page, d: int)
    requires Net(q) == Net(slab.page) + d
    ensures Worth(slab.(page := q)) == Worth(slab) + slab.size * d
  {
    Distribute(slab.size, Net(slab.page), d);
  }

  lemma Distribute(x: int, y: int, z: int)
    ensures x * (y + z) == x * y + x * z
  {
  }

  /** Bytes that each page of arena `a` has handed out, as far as recorded. */
  function PageBalance(slabs: map<Pid, Slab>, a: nat): map<nat, int> {
    map pid | pid in slabs && slabs[pid].arena == a :: Worth(slabs[pid])
  }

  /** Unflushed bytes of each thread attached to arena `a`. */
  function ThreadBalance(tlds: map<Tid, Tld>, a: nat): map<nat, int> {
    map t | t in tlds && tlds[t].arena == Some(a) :: tlds[t].allocatedBytes - tlds[t].freedBytes
  }

  /** `n` is above every thread id and page id in use. */
  predicate Covers(s: Sys, n: nat) {
    s.nextTid <= n && forall pid | pid in s.slabs :: pid < n
  }

  /** What the arena and its threads have on their books. */
  function Books(s: Sys, a: nat, n: nat): int
    requires a < |s.arenas|
  {
    s.arenas[a].allocatedBytes - s.arenas[a].freedBytes + Sum(ThreadBalance(s.tlds, a), n)
  }

  /** Allocated minus freed, plus what the attached threads have not flushed, is what the pages gave out. */
  predicate Balanced(s: Sys, a: nat, n: nat) {
    a < |s.arenas| && Books(s, a, n) == Sum(PageBalance(s.slabs, a), n)
  }

  // ---- one lemma for each thing that moves ----

  /** A page's worth changes by `x`. */
  lemma PageMoves(slabs: map<Pid, Slab>, pid: Pid, slab: Slab, x: int, a: nat, n: nat)
    requires pid in slabs && pid < n && slab.arena == slabs[pid].arena && Worth(slab) == Worth(slabs[pid]) + x
    ensures Sum(PageBalance(slabs[pid := slab], a), n) ==
      Sum(PageBalance(slabs, a), n) + if slab.arena == a then x else 0
  {
    SumChange(PageBalance(slabs, a), PageBalance(slabs[pid := slab], a), pid, n);
  }

  /** A thread's unflushed balance changes. */
  lemma ThreadMoves(tlds: map<Tid, Tld>, t: Tid, tld: Tld, a: nat, n: nat)
    requires t in tlds && t < n && tld.arena == tlds[t].arena
    ensures Sum(ThreadBalance(tlds[t := tld], a), n) == Sum(ThreadBalance(tlds, a), n) +
      if tld.arena == Some(a)
      then tld.allocatedBytes - tld.freedBytes - (tlds[t].allocatedBytes - tlds[t].freedBytes)
      else 0
  {
    SumChange(ThreadBalance(tlds, a), ThreadBalance(tlds[t := tld], a), t, n);
  }

  /** A flush moves bytes from the thread to its arena and nothing else. */
  lemma FlushBooks(s: Sys, t: Tid, tld: Tld, a: nat, n: nat)
    requires t in s.tlds && t < n && a < |s.arenas| && tld.arena == s.tlds[t].arena
    requires tld.arena.Some? && tld.arena.value < |s.arenas|
    ensures |Flushed(s, t, tld).arenas| == |s.arenas|
    ensures Books(Flushed(s, t, tld), a, n) == Books(s, a, n) +
      if tld.arena == Some(a)
      then tld.allocatedBytes - tld.freedBytes - (s.tlds[t].allocatedBytes - s.tlds[t].freedBytes)
      else 0
  {
    ThreadMoves(s.tlds, t, Flushed(s, t, tld).tlds[t], a, n);
  }

  /** The bytes that a step of a page with slots of this size records. */
  function Bytes(size: nat, a: Action): int {
    if a.FastStat? || a.SlowStat? then size else if a.StatFree? then -(size as int) else 0
  }

  /** The step records its bytes with the thread. */
  predicate LocalStat(slab: Slab, a: Action) {
    a.FastStat? || (a.StatFree? && a.t in slab.page.ops && slab.page.ops[a.t] == FreeStat(true))
  }

  /** Steps that record their bytes with the thread. */
  lemma AllocBooks(s: Sys, pid: Pid, slab: Slab, a: Action, arena: nat, n: nat)
    requires a.FastStat? && a.t in s.tlds && a.t < n && arena < |s.arenas| && slab.arena < |s.arenas|
    requires s.tlds[a.t].arena == Some(slab.arena)
    ensures |Outside(s, pid, slab, a).arenas| == |s.arenas|
    ensures Books(Outside(s, pid, slab, a), arena, n) ==
      Books(s, arena, n) + if slab.arena == arena then Bytes(slab.size, a) else 0
  {
    var tld := s.tlds[a.t].(allocatedBytes := s.tlds[a.t].allocatedBytes + slab.size, ops := s.tlds[a.t].ops + 1);
    FlushBooks(s, a.t, tld, arena, n);
    assert Outside(s, pid, slab, a) == Flushed(s, a.t, tld);
  }

  lemma FreeBooks(s: Sys, pid: Pid, slab: Slab, a: Action, arena: nat, n: nat)
    requires a.StatFree? && LocalStat(slab, a) && a.t in s.tlds
    requires a.t < n && arena < |s.arenas| && slab.arena < |s.arenas|
    requires s.tlds[a.t].arena == Some(slab.arena)
    ensures |Outside(s, pid, slab, a).arenas| == |s.arenas|
    ensures Books(Outside(s, pid, slab, a), arena, n) ==
      Books(s, arena, n) + if slab.arena == arena then Bytes(slab.size, a) else 0
  {
    var tld := s.tlds[a.t].(freedBytes := s.tlds[a.t].freedBytes + slab.size, ops := s.tlds[a.t].ops + 1);
    FlushBooks(s, a.t, tld, arena, n);
    assert Outside(s, pid, slab, a) == Flushed(s, a.t, tld);
  }

  /** Steps that record their bytes with the arena at once. */
  lemma ArenaBooks(s: Sys, pid: Pid, slab: Slab, a: Action, arena: nat, n: nat)
    requires (a.SlowStat? || a.StatFree?) && !LocalStat(slab, a) && a.t in s.tlds
    requires arena < |s.arenas| && slab.arena < |s.arenas|
    ensures |Outside(s, pid, slab, a).arenas| == |s.arenas|
    ensures Books(Outside(s, pid, slab, a), arena, n) ==
      Books(s, arena, n) + if slab.arena == arena then Bytes(slab.size, a) else 0
  {
  }

  /** Steps that change nothing but the thread's page cache. */
  lemma CacheBooks(s: Sys, pid: Pid, slab: Slab, a: Action, arena: nat, n: nat)
    requires (a.Claim? || a.Drop?) && a.t in s.tlds && a.t < n && arena < |s.arenas|
    ensures |Outside(s, pid, slab, a).arenas| == |s.arenas|
    ensures Books(Outside(s, pid, slab, a), arena, n) ==
      Books(s, arena, n) + if slab.arena == arena then Bytes(slab.size, a) else 0
  {
    ThreadMoves(s.tlds, a.t, Outside(s, pid, slab, a).tlds[a.t], arena, n);
    assert s.tlds == s.tlds[a.t := s.tlds[a.t]];
  }

  /** A page step enters on the books of the page's arena exactly what it records. */
  lemma OutsideBooks(s: Sys, pid: Pid, slab: Slab, a: Action, arena: nat, n: nat)
    requires !a.ClientWrite? && a.t in s.tlds && a.t < n && arena < |s.arenas| && slab.arena < |s.arenas|
    requires LocalStat(slab, a) ==> s.tlds[a.t].arena == Some(slab.arena)
    ensures |Outside(s, pid, slab, a).arenas| == |s.arenas|
    ensures Books(Outside(s, pid, slab, a), arena, n) ==
      Books(s, arena, n) + if slab.arena == arena then Bytes(slab.size, a) else 0
  {
    if a.FastStat? {
      AllocBooks(s, pid, slab, a, arena, n);
    } else if LocalStat(slab, a) {
      FreeBooks(s, pid, slab, a, arena, n);
    } else if a.SlowStat? || a.StatFree? {
      ArenaBooks(s, pid, slab, a, arena, n);
    } else if a.Claim? || a.Drop? {
      CacheBooks(s, pid, slab, a, arena, n);
    }
  }

  lemma ActBalanced(s: Sys, pid: Pid, a: Action, q: Page, arena: nat, n: nat)
    requires Balanced(s, arena, n) && pid in s.slabs && pid < n && !a.ClientWrite? && a.t in s.tlds && a.t < n
    requires s.slabs[pid].arena < |s.arenas|
    requires LocalStat(s.slabs[pid], a) ==> s.tlds[a.t].arena == Some(s.slabs[pid].arena)
    requires Net(q) == Net(s.slabs[pid].page) + Recorded(a)
    ensures Balanced(Outside(s, pid, s.slabs[pid], a).(slabs := s.slabs[pid := s.slabs[pid].(page := q)]), arena, n)
  {
    var slab := s.slabs[pid];
    OutsideBooks(s, pid, slab, a, arena, n);
    WorthStep(slab, q, Recorded(a));
    PageMoves(s.slabs, pid, slab.(page := q), Bytes(slab.size, a), arena, n);
  }

  lemma WriteBalanced(s: Sys, pid: Pid, q: Page, arena: nat, n: nat)
    requires Balanced(s, arena, n) && pid in s.slabs && pid < n && Net(q) == Net(s.slabs[pid].page)
    ensures Balanced(s.(slabs := s.slabs[pid := s.slabs[pid].(page := q)]), arena, n)
  {
    WorthStep(s.slabs[pid], q, 0);
    PageMoves(s.slabs, pid, s.slabs[pid].(page := q), 0, arena, n);
  }

  /** What a page step records, and for which arena. */
  ghost predicate Records(s: Sys, pid: Pid, a: Action, q: Page, n: nat)
    requires pid in s.slabs && !a.ClientWrite?
  {
    && s.slabs[pid].arena < |s.arenas| && pid < n && a.t in s.tlds && a.t < n
    && (LocalStat(s.slabs[pid], a) ==> s.tlds[a.t].arena == Some(s.slabs[pid].arena))
    && Net(q) == Net(s.slabs[pid].page) + Recorded(a)
  }

  /** Only the owner of a page records its bytes with itself. */
  lemma OwnerRecords(p: Page, t: Tid)
    requires PageInv(p) && t in p.ops && (p.ops[t] == Marked(Fast) || p.ops[t] == FreeStat(true))
    ensures p.owner == Some(t)
  {
    var v :| Inv(p, v);
    assert ThreadOk(p, v, t);
  }

  lemma ArenaRecords(s: Sys, pid: Pid, a: Action)
    requires SysOk(s) && pid in s.slabs && Fits(s, pid, s.slabs[pid], a)
    requires LocalStat(s.slabs[pid], a) ==> s.slabs[pid].page.owner == Some(a.t)
    ensures s.slabs[pid].arena < |s.arenas|
    ensures !a.ClientWrite? ==> a.t in s.tlds && a.t < s.nextTid
    ensures LocalStat(s.slabs[pid], a) ==> s.tlds[a.t].arena == Some(s.slabs[pid].arena)
  {
    assert SlabOk(s, pid);
    if !a.ClientWrite? { assert TldOk(s, a.t); }
  }

  lemma NetRecords(p: Page, a: Action)
    requires PageInv(p) && Ok(p, a)
    ensures Net(Apply(p, a)) == Net(p) + Recorded(a)
  {
    var v :| Inv(p, v);
    NetStep(p, v, a);
  }

  lemma ActRecords(s: Sys, pid: Pid, a: Action, n: nat)
    requires SysOk(s) && PagesOk(s) && Covers(s, n) && !a.ClientWrite?
    requires CanAct(s, pid, a) && ClaimSafe(s.slabs[pid].page, a)
    ensures Records(s, pid, a, Apply(s.slabs[pid].page, a), n)
  {
    var p := s.slabs[pid].page;
    NetRecords(p, a);
    if LocalStat(s.slabs[pid], a) { OwnerRecords(p, a.t); }
    ArenaRecords(s, pid, a);
  }

  lemma RecordsBalance(s: Sys, pid: Pid, a: Action, arena: nat, n: nat)
    requires CanAct(s, pid, a) && !a.ClientWrite? && Balanced(s, arena, n)
    requires Records(s, pid, a, Apply(s.slabs[pid].page, a), n)
    ensures Balanced(DoAct(s, pid, a), arena, n)
  {
    ActBalanced(s, pid, a, Apply(s.slabs[pid].page, a), arena, n);
  }

  lemma ActBalances(s: Sys, pid: Pid, a: Action, arena: nat, n: nat)
    requires SysOk(s) && PagesOk(s) && Covers(s, n) && Balanced(s, arena, n)
    requires CanAct(s, pid, a) && ClaimSafe(s.slabs[pid].page, a)
    ensures Balanced(DoAct(s, pid, a), arena, n)
  {
    if a.ClientWrite? {
      WriteBalanced(s, pid, Apply(s.slabs[pid].page, a), arena, n);
    } else {
      ActRecords(s, pid, a, n);
      RecordsBalance(s, pid, a, arena, n);
    }
  }

  lemma AttachBalanced(s: Sys, t: Tid, a: nat, arena: nat, n: nat)
    requires Balanced(s, arena, n) && t in s.tlds && t < n && s.tlds[t].arena.None?
    requires s.tlds[t].allocatedBytes == s.tlds[t].freedBytes == 0
    ensures Balanced(s.(tlds := s.tlds[t := s.tlds[t].(arena := Some(a))]), arena, n)
  {
    SumChange(ThreadBalance(s.tlds, arena), ThreadBalance(s.tlds[t := s.tlds[t].(arena := Some(a))], arena), t, n);
  }

  lemma SpawnBalanced(s: Sys, arena: nat, n: nat)
    requires Balanced(s, arena, n) && s.nextTid !in s.tlds
    ensures Balanced(DoSpawn(s), arena, n)
  {
    assert ThreadBalance(DoSpawn(s).tlds, arena) == ThreadBalance(s.tlds, arena);
  }

  lemma NewPageBalanced(s: Sys, t: Tid, pid: Pid, bin: nat, size: nat, debug: bool, link: seq<Ptr>, arena: nat, n: nat)
    requires Balanced(s, arena, n) && t in s.tlds && s.tlds[t].arena.Some? && pid !in s.slabs && pid < n
    ensures Balanced(DoNewPage(s, t, pid, bin, size, debug, link), arena, n)
  {
    var r := DoNewPage(s, t, pid, bin, size, debug, link);
    var p := r.slabs[pid].page;
    assert Unrecorded(p.ops) == {} && Uncredited(p.ops) == {};
    assert Worth(r.slabs[pid]) == 0;
    SumChange(PageBalance(s.slabs, arena), PageBalance(r.slabs, arena), pid, n);
  }

  lemma LeftWorth(slab: Slab, t: Tid)
    ensures Left(slab, t).arena == slab.arena && Worth(Left(slab, t)) == Worth(slab)
  {
  }

  /** A thread's last bytes go to its arena when it exits. */
  lemma ExitBalanced(s: Sys, t: Tid, arena: nat, n: nat)
    requires Balanced(s, arena, n) && t in s.tlds && t < n
    ensures Balanced(DoThreadExit(s, t), arena, n)
  {
    var r := DoThreadExit(s, t);
    forall pid | pid in s.slabs
      ensures r.slabs[pid].arena == s.slabs[pid].arena && Worth(r.slabs[pid]) == Worth(s.slabs[pid])
    {
      LeftWorth(s.slabs[pid], t);
    }
    assert PageBalance(r.slabs, arena) == PageBalance(s.slabs, arena);
    SumChange(ThreadBalance(s.tlds, arena), ThreadBalance(r.tlds, arena), t, n);
  }

  /** Every move that respects H keeps every arena balanced. */
  lemma MoveBalanced(s: Sys, m: Move, arena: nat, n: nat)
    requires SysOk(s) && PagesOk(s) && CanMove(s, m) && Safe(s, m) && Balanced(s, arena, n)
    requires Covers(Moved(s, m), n) && Covers(s, n)
    ensures Balanced(Moved(s, m), arena, n)
  {
    match m
    case Spawn =>
      forall t | t in s.tlds ensures t < s.nextTid { assert TldOk(s, t); }
      SpawnBalanced(s, arena, n);
    case Attach(t, a) => assert TldOk(s, t); AttachBalanced(s, t, a, arena, n);
    case Lock(t) =>
    case Unlock(t) =>
    case NewPage(t, pid, bin, size, debug, link) =>
      assert pid in Moved(s, m).slabs;
      NewPageBalanced(s, t, pid, bin, size, debug, link, arena, n);
    case Act(pid, a) => ActBalances(s, pid, a, arena, n);
    case ThreadExit(t) => assert TldOk(s, t); ExitBalanced(s, t, arena, n);
  }
}
