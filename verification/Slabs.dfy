/** The slab allocator as a whole: pages of every bin, the arenas they belong to, and the threads with
    their page caches and unflushed statistics. Each step acts on one page or one thread. */
module Slabs {
  import opened Basics
  import opened PageProtocol

  type Pid = nat

  /** A page in use, with the size class and the arena it was created for. */
  datatype Slab = Slab(page: Page, bin: nat, arena: nat, size: nat)

  /** Thread-local data: the arena, one cached page for each bin, and statistics since the last flush. */
  datatype Tld = Tld(arena: Option<nat>, binPage: map<nat, Pid>, allocatedBytes: nat, freedBytes: nat, ops: nat)

  datatype Arena = Arena(lock: Option<Tid>, allocatedBytes: nat, freedBytes: nat)

  datatype Sys = Sys(
    slabs: map<Pid, Slab>,
    tlds: map<Tid, Tld>,
    arenas: seq<Arena>,
    exited: set<Tid>,
    nextTid: nat,
    crashed: bool)            // a statistics flush dereferenced a null arena

  datatype Move =
    | Spawn
    | Attach(t: Tid, arena: nat)
    | Lock(t: Tid)
    | Unlock(t: Tid)
    | NewPage(t: Tid, pid: Pid, bin: nat, size: nat, debug: bool, link: seq<Ptr>)
    | Act(pid: Pid, a: Action)
    | ThreadExit(t: Tid)

  const FLUSH_INTERVAL := 64
  const TAG_COUNT := 65536

  function Start(arenas: nat): Sys {
    Sys(map[], map[], seq(arenas, _ => Arena(None, 0, 0)), {}, 0, false)
  }

  /** No operation of `t` on any page is in progress. */
  predicate Quiet(s: Sys, t: Tid) {
    forall pid | pid in s.slabs :: t !in s.slabs[pid].page.ops
  }

  predicate Holds(s: Sys, t: Tid, arena: nat) {
    arena < |s.arenas| && s.arenas[arena].lock == Some(t)
  }

  predicate Unlocked(s: Sys, arena: nat) {
    arena < |s.arenas| && s.arenas[arena].lock == None
  }

  /** The thread is between two calls of the allocator. */
  predicate Between(s: Sys, t: Tid) {
    t in s.tlds && Quiet(s, t) && forall i | 0 <= i < |s.arenas| :: s.arenas[i].lock != Some(t)
  }

  /** The thread is inside arena_alloc of `arena`, between two pages, looking for a page of `bin`. */
  predicate Scanning(s: Sys, t: Tid, arena: nat, bin: nat) {
    t in s.tlds && Quiet(s, t) && Holds(s, t, arena) && s.tlds[t].arena == Some(arena) && bin !in s.tlds[t].binPage
  }

  /** A page step fits what its thread is doing: it starts an operation only between calls, uses its
      cached page on the fast path, and holds the arena lock on the slow one. */
  predicate Fits(s: Sys, pid: Pid, slab: Slab, a: Action) {
    match a
    case ClientWrite(_, _) => true
    case Exit(_) => false
    case FastTry(t) => Between(s, t) && slab.bin in s.tlds[t].binPage && s.tlds[t].binPage[slab.bin] == pid
    case SlowTest(t) => Scanning(s, t, slab.arena, slab.bin)
    case FreeCall(t, _) => Between(s, t)
    case FreeUnchecked(t, _) => Between(s, t)
    case _ => a.t in s.tlds
  }

  predicate CanAct(s: Sys, pid: Pid, a: Action) {
    pid in s.slabs && Enabled(s.slabs[pid].page, a) && Fits(s, pid, s.slabs[pid], a)
  }

  /** The thread's arena, if it has one and holds its lock. */
  predicate InArena(s: Sys, t: Tid) {
    t in s.tlds && Quiet(s, t) && s.tlds[t].arena.Some? && Holds(s, t, s.tlds[t].arena.value)
  }

  predicate CanMove(s: Sys, m: Move) {
    !s.crashed &&
    match m
    case Spawn => true
    case Attach(t, a) => t in s.tlds && s.tlds[t].arena.None? && a < |s.arenas|
    case Lock(t) => Between(s, t) && s.tlds[t].arena.Some? && Unlocked(s, s.tlds[t].arena.value)
    case Unlock(t) => InArena(s, t)
    case NewPage(t, pid, bin, _, _, link) =>
      InArena(s, t) && bin !in s.tlds[t].binPage && pid !in s.slabs && 0 < |link| <= 4096
    case Act(pid, a) => CanAct(s, pid, a)
    case ThreadExit(t) => Between(s, t)
  }

  /** Hypothesis H, for the page a move acts on. */
  predicate Safe(s: Sys, m: Move) {
    m.Act? && m.pid in s.slabs ==> ClaimSafe(s.slabs[m.pid].page, m.a)
  }

  /** tld_stat_flush, once the interval is reached. */
  function Flushed(s: Sys, t: Tid, tld: Tld): Sys {
    if tld.ops < FLUSH_INTERVAL then s.(tlds := s.tlds[t := tld])
    else
      match tld.arena
      case Some(a) =>
        s.(tlds := s.tlds[t := tld.(allocatedBytes := 0, freedBytes := 0, ops := 0)],
           arenas := Credit(s.arenas, a, tld.allocatedBytes, tld.freedBytes))
      case None => s.(crashed := true)
  }

  /** Atomic additions to an arena's counters. */
  function Credit(arenas: seq<Arena>, a: nat, allocatedBytes: nat, freedBytes: nat): seq<Arena> {
    if a < |arenas| then
      arenas[a := arenas[a].(allocatedBytes := arenas[a].allocatedBytes + allocatedBytes,
                             freedBytes := arenas[a].freedBytes + freedBytes)]
    else arenas
  }

  function SetLock(arenas: seq<Arena>, a: nat, holder: Option<Tid>): seq<Arena> {
    if a < |arenas| then arenas[a := arenas[a].(lock := holder)] else arenas
  }

  /** What a page step does outside the page: statistics, the arena lock, the page cache. */
  function Outside(s: Sys, pid: Pid, slab: Slab, a: Action): Sys {
    if a.ClientWrite? || a.t !in s.tlds then s
    else
      var t := a.t;
      var tld := s.tlds[t];
      match a
      case FastStat(_) => Flushed(s, t, tld.(allocatedBytes := tld.allocatedBytes + slab.size, ops := tld.ops + 1))
      case SlowStat(_) => s.(arenas := SetLock(Credit(s.arenas, slab.arena, slab.size, 0), slab.arena, None))
      case StatFree(_) =>
        if t in slab.page.ops && slab.page.ops[t] == FreeStat(true)
        then Flushed(s, t, tld.(freedBytes := tld.freedBytes + slab.size, ops := tld.ops + 1))
        else s.(arenas := Credit(s.arenas, slab.arena, 0, slab.size))
      case Claim(_) =>
        if slab.page.owner == None || slab.page.owner == Some(t)
        then s.(tlds := s.tlds[t := tld.(binPage := tld.binPage[slab.bin := pid])])
        else s
      case Drop(_) => s.(tlds := s.tlds[t := tld.(binPage := tld.binPage - {slab.bin})])
      case _ => s
  }

  function DoAct(s: Sys, pid: Pid, a: Action): Sys
    requires CanAct(s, pid, a)
  {
    var slab := s.slabs[pid];
    Outside(s, pid, slab, a).(slabs := s.slabs[pid := slab.(page := Apply(slab.page, a))])
  }

  function DoSpawn(s: Sys): Sys {
    s.(tlds := s.tlds[s.nextTid := Tld(None, map[], 0, 0, 0)], nextTid := s.nextTid + 1)
  }

  function DoNewPage(s: Sys, t: Tid, pid: Pid, bin: nat, size: nat, debug: bool, link: seq<Ptr>): Sys
    requires t in s.tlds && s.tlds[t].arena.Some?
  {
    s.(slabs := s.slabs[pid := Slab(Fresh(TAG_COUNT, debug, link, s.exited, t), bin, s.tlds[t].arena.value, size)])
  }

  /** The page after the exit of thread `t`. */
  function Left(slab: Slab, t: Tid): Slab {
    if Idle(slab.page, t) then slab.(page := DoExit(slab.page, t)) else slab
  }

  function DoThreadExit(s: Sys, t: Tid): Sys
    requires t in s.tlds
  {
    var tld := s.tlds[t];
    s.(slabs := map pid | pid in s.slabs :: Left(s.slabs[pid], t),
       tlds := s.tlds - {t},
       exited := s.exited + {t},
       arenas := match tld.arena
                 case Some(a) => Credit(s.arenas, a, tld.allocatedBytes, tld.freedBytes)
                 case None => s.arenas)
  }

  function Moved(s: Sys, m: Move): Sys
    requires CanMove(s, m)
  {
    match m
    case Spawn => DoSpawn(s)
    case Attach(t, a) => s.(tlds := s.tlds[t := s.tlds[t].(arena := Some(a))])
    case Lock(t) => s.(arenas := SetLock(s.arenas, s.tlds[t].arena.value, Some(t)))
    case Unlock(t) => s.(arenas := SetLock(s.arenas, s.tlds[t].arena.value, None))
    case NewPage(t, pid, bin, size, debug, link) => DoNewPage(s, t, pid, bin, size, debug, link)
    case Act(pid, a) => DoAct(s, pid, a)
    case ThreadExit(t) => DoThreadExit(s, t)
  }
}
