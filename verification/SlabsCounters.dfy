/** The two byte counters of every arena, each for itself: what a run has recorded as allocated, and as freed. */
module SlabsCounters {
  import opened Basics
  import opened PageProtocol
  import opened PageInvariant
  import opened PageOwner
  import opened Slabs
  import opened SlabsProof
  import opened SlabsLedger
  import SlabsRuns

  /** The counter a statement is about. */
  datatype Counter = Allocated | Freed

  function OfArena(a: Arena, c: Counter): nat { if c.Allocated? then a.allocatedBytes else a.freedBytes }

  function OfThread(tld: Tld, c: Counter): nat { if c.Allocated? then tld.allocatedBytes else tld.freedBytes }

  /** Unflushed bytes of each thread attached to arena `a`. */
  function Unflushed(tlds: map<Tid, Tld>, a: nat, c: Counter): map<nat, int> {
    map t | t in tlds && tlds[t].arena == Some(a) :: OfThread(tlds[t], c)
  }

  /** The counter of the arena, with what its threads have not flushed. */
  function Total(s: Sys, a: nat, c: Counter, n: nat): int
    requires a < |s.arenas|
  {
    OfArena(s.arenas[a], c) + Sum(Unflushed(s.tlds, a, c), n)
  }

  /** What a page step records on the counter. */
  function StepBytes(size: nat, a: Action, c: Counter): nat {
    if (if c.Allocated? then a.FastStat? || a.SlowStat? else a.StatFree?) then size else 0
  }

  /** What a move records on the counter of arena `a`. */
  function MoveBytes(s: Sys, m: Move, a: nat, c: Counter): nat {
    if m.Act? && m.pid in s.slabs && s.slabs[m.pid].arena == a then StepBytes(s.slabs[m.pid].size, m.a, c) else 0
  }

  lemma ThreadTotal(tlds: map<Tid, Tld>, t: Tid, tld: Tld, a: nat, c: Counter, n: nat)
    requires t in tlds && t < n && tld.arena == tlds[t].arena
    ensures Sum(Unflushed(tlds[t := tld], a, c), n) ==
      Sum(Unflushed(tlds, a, c), n) + if tld.arena == Some(a) then OfThread(tld, c) - OfThread(tlds[t], c) else 0
  {
    SumChange(Unflushed(tlds, a, c), Unflushed(tlds[t := tld], a, c), t, n);
  }

  /** A flush moves bytes from the thread to its arena, on each counter. */
  lemma FlushTotal(s: Sys, t: Tid, tld: Tld, a: nat, c: Counter, n: nat)
    requires t in s.tlds && t < n && a < |s.arenas| && tld.arena == s.tlds[t].arena
    requires tld.arena.Some? && tld.arena.value < |s.arenas|
    ensures |Flushed(s, t, tld).arenas| == |s.arenas|
    ensures Total(Flushed(s, t, tld), a, c, n) ==
      Total(s, a, c, n) + if tld.arena == Some(a) then OfThread(tld, c) - OfThread(s.tlds[t], c) else 0
  {
    ThreadTotal(s.tlds, t, Flushed(s, t, tld).tlds[t], a, c, n);
  }

  lemma LocalTotal(s: Sys, pid: Pid, slab: Slab, a: Action, arena: nat, c: Counter, n: nat)
    requires LocalStat(slab, a) && a.t in s.tlds && a.t < n && arena < |s.arenas| && slab.arena < |s.arenas|
    requires s.tlds[a.t].arena == Some(slab.arena)
    ensures |Outside(s, pid, slab, a).arenas| == |s.arenas|
    ensures Total(Outside(s, pid, slab, a), arena, c, n) ==
      Total(s, arena, c, n) + if slab.arena == arena then StepBytes(slab.size, a, c) else 0
  {
    var tld := Noted(s.tlds[a.t], slab.size, a);
    NotedIs(s, pid, slab, a);
    FlushTotal(s, a.t, tld, arena, c, n);
  }

  /** The thread's data once the step is noted there. */
  function Noted(tld: Tld, size: nat, a: Action): Tld {
    if a.FastStat? then tld.(allocatedBytes := tld.allocatedBytes + size, ops := tld.ops + 1)
    else tld.(freedBytes := tld.freedBytes + size, ops := tld.ops + 1)
  }

  lemma NotedIs(s: Sys, pid: Pid, slab: Slab, a: Action)
    requires LocalStat(slab, a) && a.t in s.tlds
    ensures Outside(s, pid, slab, a) == Flushed(s, a.t, Noted(s.tlds[a.t], slab.size, a))
  {
  }

  lemma ArenaTotal(s: Sys, pid: Pid, slab: Slab, a: Action, arena: nat, c: Counter, n: nat)
    requires (a.SlowStat? || a.StatFree?) && !LocalStat(slab, a) && a.t in s.tlds
    requires arena < |s.arenas| && slab.arena < |s.arenas|
    ensures |Outside(s, pid, slab, a).arenas| == |s.arenas|
    ensures Total(Outside(s, pid, slab, a), arena, c, n) ==
      Total(s, arena, c, n) + if slab.arena == arena then StepBytes(slab.size, a, c) else 0
  {
  }

  lemma CacheTotal(s: Sys, pid: Pid, slab: Slab, a: Action, arena: nat, c: Counter, n: nat)
    requires (a.Claim? || a.Drop?) && a.t in s.tlds && a.t < n && arena < |s.arenas|
    ensures |Outside(s, pid, slab, a).arenas| == |s.arenas|
    ensures Total(Outside(s, pid, slab, a), arena, c, n) == Total(s, arena, c, n)
  {
    ThreadTotal(s.tlds, a.t, Outside(s, pid, slab, a).tlds[a.t], arena, c, n);
    assert s.tlds == s.tlds[a.t := s.tlds[a.t]];
  }

  lemma ActTotal(s: Sys, pid: Pid, a: Action, arena: nat, c: Counter, n: nat)
    requires CanAct(s, pid, a) && !a.ClientWrite? && a.t in s.tlds && a.t < n
    requires arena < |s.arenas| && s.slabs[pid].arena < |s.arenas|
    requires LocalStat(s.slabs[pid], a) ==> s.tlds[a.t].arena == Some(s.slabs[pid].arena)
    ensures |DoAct(s, pid, a).arenas| == |s.arenas|
    ensures Total(DoAct(s, pid, a), arena, c, n) == Total(s, arena, c, n) + MoveBytes(s, Act(pid, a), arena, c)
  {
    var slab := s.slabs[pid];
    if LocalStat(slab, a) {
      LocalTotal(s, pid, slab, a, arena, c, n);
    } else if a.SlowStat? || a.StatFree? {
      ArenaTotal(s, pid, slab, a, arena, c, n);
    } else if a.Claim? || a.Drop? {
      CacheTotal(s, pid, slab, a, arena, c, n);
    }
  }

  /** Only the owner of a page records its bytes with itself. */
  lemma OwnerLocal(p: Page, t: Tid)
    requires OwnInv(p) && t in p.ops && (p.ops[t] == Marked(Fast) || p.ops[t] == FreeStat(true))
    ensures p.owner == Some(t)
  {
    assert OwnAt(p, t);
  }

  lemma StatGuard(p: Page, a: Action)
    requires Enabled(p, a) && a.FastStat?
    ensures a.t in p.ops && p.ops[a.t] == Marked(Fast)
  {
  }

  lemma ActFacts(s: Sys, pid: Pid, a: Action, n: nat)
    requires SysOk(s) && PagesOwned(s) && Covers(s, n) && CanAct(s, pid, a) && !a.ClientWrite?
    ensures a.t in s.tlds && a.t < n && s.slabs[pid].arena < |s.arenas|
    ensures LocalStat(s.slabs[pid], a) ==> s.tlds[a.t].arena == Some(s.slabs[pid].arena)
  {
    var p := s.slabs[pid].page;
    if LocalStat(s.slabs[pid], a) {
      if a.FastStat? { StatGuard(p, a); }
      OwnerLocal(p, a.t);
    }
    ArenaRecords(s, pid, a);
  }

  lemma ExitTotal(s: Sys, t: Tid, arena: nat, c: Counter, n: nat)
    requires t in s.tlds && t < n && arena < |s.arenas|
    ensures |DoThreadExit(s, t).arenas| == |s.arenas|
    ensures Total(DoThreadExit(s, t), arena, c, n) == Total(s, arena, c, n)
  {
    var r := DoThreadExit(s, t);
    SumChange(Unflushed(s.tlds, arena, c), Unflushed(r.tlds, arena, c), t, n);
  }

  lemma AttachTotal(s: Sys, t: Tid, a: nat, arena: nat, c: Counter, n: nat)
    requires t in s.tlds && t < n && s.tlds[t].arena.None? && arena < |s.arenas|
    requires s.tlds[t].allocatedBytes == s.tlds[t].freedBytes == 0
    ensures Total(s.(tlds := s.tlds[t := s.tlds[t].(arena := Some(a))]), arena, c, n) == Total(s, arena, c, n)
  {
    SumChange(Unflushed(s.tlds, arena, c), Unflushed(s.tlds[t := s.tlds[t].(arena := Some(a))], arena, c), t, n);
  }

  lemma SpawnTotal(s: Sys, arena: nat, c: Counter, n: nat)
    requires s.nextTid !in s.tlds && arena < |s.arenas|
    ensures Total(DoSpawn(s), arena, c, n) == Total(s, arena, c, n)
  {
    assert Unflushed(DoSpawn(s).tlds, arena, c) == Unflushed(s.tlds, arena, c);
  }

  /** Every move, with or without H, changes each counter by exactly what it records there. */
  lemma MoveTotal(s: Sys, m: Move, arena: nat, c: Counter, n: nat)
    requires SysOk(s) && PagesOwned(s) && CanMove(s, m) && Covers(s, n) && arena < |s.arenas|
    ensures |Moved(s, m).arenas| == |s.arenas|
    ensures Total(Moved(s, m), arena, c, n) == Total(s, arena, c, n) + MoveBytes(s, m, arena, c)
  {
    match m
    case Spawn =>
      forall t | t in s.tlds ensures t < s.nextTid { assert TldOk(s, t); }
      SpawnTotal(s, arena, c, n);
    case Attach(t, a) => assert TldOk(s, t); AttachTotal(s, t, a, arena, c, n);
    case Act(pid, a) => if !a.ClientWrite? { ActFacts(s, pid, a, n); ActTotal(s, pid, a, arena, c, n); }
    case ThreadExit(t) => assert TldOk(s, t); ExitTotal(s, t, arena, c, n);
    case _ =>
  }

  /** What the first `i` moves of a run record on the counter of arena `a`. */
  function RunBytes(states: seq<Sys>, moves: seq<Move>, i: nat, a: nat, c: Counter): nat
    requires i <= |moves| < |states|
  {
    if i == 0 then 0 else RunBytes(states, moves, i - 1, a, c) + MoveBytes(states[i - 1], moves[i - 1], a, c)
  }

  /** In every state of every run, with or without H, across thread exits: the bytes an arena has on its allocated
      counter, with what its threads have not flushed, are those of all allocations completed on its pages so far; and
      those on its freed counter are those of all frees. */
  lemma {:induction false} CountersExact(states: seq<Sys>, moves: seq<Move>, i: nat, arena: nat, c: Counter, n: nat)
    requires SlabsRuns.IsRun(states, moves) && i <= |moves| && Covers(states[i], n) && arena < |states[0].arenas|
    ensures |states[i].arenas| == |states[0].arenas|
    ensures Total(states[i], arena, c, n) == RunBytes(states, moves, i, arena, c)
    decreases i
  {
    if i == 0 {
      SlabsRuns.EmptySum(n);
      assert Unflushed(states[0].tlds, arena, c) == map[];
    } else {
      var s, m := states[i - 1], moves[i - 1];
      assert CanMove(s, m);
      SlabsRuns.CoversBefore(s, m, n);
      CountersExact(states, moves, i - 1, arena, c, n);
      SlabsRuns.EveryRun(states, moves, i - 1);
      MoveTotal(s, m, arena, c, n);
    }
  }

  /** In every run, with or without H: each operation that a thread notes with itself adds one to its backlog, and the
      64th flushes it. */
  lemma BacklogCounts(s: Sys, pid: Pid, a: Action)
    requires SlabsRuns.Reachable(s) && CanMove(s, Act(pid, a)) && LocalStat(s.slabs[pid], a)
    ensures a.t in s.tlds && a.t in DoAct(s, pid, a).tlds
    ensures DoAct(s, pid, a).tlds[a.t].ops == (s.tlds[a.t].ops + 1) % 64
    ensures DoAct(s, pid, a).tlds[a.t].ops == 0 ==>
      DoAct(s, pid, a).tlds[a.t].allocatedBytes == DoAct(s, pid, a).tlds[a.t].freedBytes == 0
  {
    SlabsRuns.ReachableOk(s);
    Attached(s, pid, a);
    NotedIs(s, pid, s.slabs[pid], a);
  }

  lemma Attached(s: Sys, pid: Pid, a: Action)
    requires SysOk(s) && PagesOwned(s) && CanAct(s, pid, a) && LocalStat(s.slabs[pid], a)
    ensures a.t in s.tlds && s.tlds[a.t].arena.Some? && s.tlds[a.t].ops < 64
  {
    if a.FastStat? { StatGuard(s.slabs[pid].page, a); }
    OwnerLocal(s.slabs[pid].page, a.t);
    ArenaRecords(s, pid, a);
    assert TldOk(s, a.t);
  }
}
