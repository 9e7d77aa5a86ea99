/** The runs of the whole slab allocator contain its calls: from every state reachable under H, a thread between two
    calls can allocate and free as the code does, wherever the other threads are, and a call can be finished. */
module SlabsCalls {
  import opened Basics
  import opened PageProtocol
  import opened PageInvariant
  import opened PageIface
  import opened PageRuns
  import opened PageCalls
  import opened Slabs
  import opened SlabsProof
  import SlabsRuns
  import opened SlabsPages
  import F = PageForms

  /** A move that respects H. */
  predicate Leads(s: Sys, m: Move, r: Sys) { CanMove(s, m) && Safe(s, m) && r == Slabs.Moved(s, m) }

  /** The state that a sequence of moves leads to; None if some move is not possible or violates H. */
  function Play(s: Sys, moves: seq<Move>): Option<Sys> {
    if moves == [] then Some(s)
    else
      var q := Play(s, moves[..|moves| - 1]);
      var m := moves[|moves| - 1];
      if q.Some? && CanMove(q.value, m) && Safe(q.value, m) then Some(Slabs.Moved(q.value, m)) else None
  }

  predicate Path(s: Sys, moves: seq<Move>, r: Sys) { Play(s, moves) == Some(r) }

  lemma MoreMoves(s: Sys, moves: seq<Move>, q: Sys, m: Move, r: Sys)
    requires Path(s, moves, q) && Leads(q, m, r)
    ensures Path(s, moves + [m], r)
  {
    assert (moves + [m])[..|moves|] == moves && (moves + [m])[|moves|] == m;
  }

  lemma OneMove(s: Sys, m: Move, r: Sys)
    requires Leads(s, m, r)
    ensures Path(s, [m], r)
  {
    assert [m][..0] == [];
  }

  lemma {:induction false} JoinMoves(s: Sys, moves: seq<Move>, q: Sys, moves': seq<Move>, r: Sys)
    requires Path(s, moves, q) && Path(q, moves', r)
    ensures Path(s, moves + moves', r)
    decreases |moves'|
  {
    if moves' == [] {
      assert moves + moves' == moves;
    } else {
      var prefix, m := moves'[..|moves'| - 1], moves'[|moves'| - 1];
      JoinMoves(s, moves, q, prefix, Play(q, prefix).value);
      MoreMoves(s, moves + prefix, Play(q, prefix).value, m, r);
      assert moves + prefix + [m] == moves + moves';
    }
  }

  lemma StaysReachable(s: Sys, m: Move, r: Sys)
    requires SlabsRuns.SafelyReachable(s) && Leads(s, m, r)
    ensures SlabsRuns.SafelyReachable(r)
  {
    var states, moves :| SlabsRuns.IsSafeRun(states, moves) && states[|moves|] == s;
    var states', moves' := states + [r], moves + [m];
    forall i | 0 <= i < |moves'| ensures Leads(states'[i], moves'[i], states'[i + 1]) {
      if i < |moves| {
        assert moves'[i] == moves[i] && states'[i] == states[i] && states'[i + 1] == states[i + 1];
      } else {
        assert moves'[i] == m && states'[i] == s && states'[i + 1] == r;
      }
    }
    assert states'[0] == states[0];
    assert SlabsRuns.IsSafeRun(states', moves');
  }

  lemma SafeIsSound(s: Sys)
    requires SlabsRuns.SafelyReachable(s)
    ensures SysOk(s)
  {
    var states, moves :| SlabsRuns.IsSafeRun(states, moves) && states[|moves|] == s;
    SlabsRuns.EveryRun(states, moves, |moves|);
  }

  // ---- from a page to the whole ----

  function Lifted(run: seq<Action>, pid: Pid): seq<Move> {
    if run == [] then [] else Lifted(run[..|run| - 1], pid) + [Act(pid, run[|run| - 1])]
  }

  /** Steps of one thread inside one operation, the first of which may begin it. */
  predicate OneCall(run: seq<Action>, t: Tid) {
    && (forall a | a in run :: !a.ClientWrite? && !a.Exit? && a.t == t)
    && forall i | 0 < i < |run| :: !Begins(run[i])
  }

  lemma InsideStep(p: Page, a: Action)
    requires Enabled(p, a) && !a.ClientWrite? && !a.Exit? && !Begins(a)
    ensures a.t in p.ops
  {
  }

  /** Locks are only given up. */
  ghost predicate Releases(s: Sys, r: Sys) {
    |r.arenas| == |s.arenas| &&
    forall i | 0 <= i < |s.arenas| :: r.arenas[i].lock == s.arenas[i].lock || r.arenas[i].lock == None
  }

  lemma ActReleases(s: Sys, pid: Pid, a: Action)
    requires CanAct(s, pid, a)
    ensures Releases(s, DoAct(s, pid, a)) && forall t | t in s.tlds :: t in DoAct(s, pid, a).tlds
    ensures a.SlowStat? && a.t in s.tlds && s.slabs[pid].arena < |s.arenas| ==>
      DoAct(s, pid, a).arenas[s.slabs[pid].arena].lock == None
  {
  }

  predicate HasStat(run: seq<Action>) { exists a | a in run :: a.SlowStat? }

  /** The state after a call on page `pid`: of the pages that one alone has changed, and no thread has ended. */
  ghost predicate After(s: Sys, r: Sys, pid: Pid, q: Page) {
    && pid in s.slabs && r.slabs == s.slabs[pid := s.slabs[pid].(page := q)]
    && Releases(s, r) && forall t | t in s.tlds :: t in r.tlds
  }

  lemma AfterMore(s: Sys, s1: Sys, r: Sys, pid: Pid, p: Page, q: Page)
    requires After(s, s1, pid, p) && After(s1, r, pid, q)
    ensures After(s, r, pid, q)
  {
  }

  lemma AfterNothing(s: Sys, pid: Pid)
    requires pid in s.slabs
    ensures After(s, s, pid, PageOf(s, pid))
  {
  }

  lemma LiftStep(s: Sys, pid: Pid, a: Action) returns (r: Sys)
    requires SlabsRuns.SafelyReachable(s) && pid in s.slabs && Ok(PageOf(s, pid), a) && !a.ClientWrite? && !a.Exit?
    requires Begins(a) ==> Fits(s, pid, s.slabs[pid], a)
    ensures Leads(s, Act(pid, a), r) && SlabsRuns.SafelyReachable(r) && After(s, r, pid, Apply(PageOf(s, pid), a))
    ensures a.SlowStat? ==> s.slabs[pid].arena < |s.arenas| && r.arenas[s.slabs[pid].arena].lock == None
  {
    MayAct(s, pid, a);
    ActReleases(s, pid, a);
    r := DoAct(s, pid, a);
    StaysReachable(s, Act(pid, a), r);
  }

  lemma MayAct(s: Sys, pid: Pid, a: Action)
    requires SlabsRuns.SafelyReachable(s) && pid in s.slabs && Enabled(PageOf(s, pid), a)
    requires !a.ClientWrite? && !a.Exit? && (Begins(a) ==> Fits(s, pid, s.slabs[pid], a))
    ensures CanMove(s, Act(pid, a)) && a.t in s.tlds && s.slabs[pid].arena < |s.arenas|
  {
    SafeIsSound(s);
    assert SlabOk(s, pid);
    if !Begins(a) {
      InsideStep(PageOf(s, pid), a);
      assert OpOk(s, pid, a.t);
    }
  }

  /** A run of the page by one thread is a run of the whole. */
  lemma {:induction false} Lift(s: Sys, t: Tid, pid: Pid, run: seq<Action>, q: Page) returns (r: Sys)
    requires SlabsRuns.SafelyReachable(s) && pid in s.slabs && Runs(PageOf(s, pid), run, q) && OneCall(run, t)
    requires run != [] && Begins(run[0]) ==> Fits(s, pid, s.slabs[pid], run[0])
    ensures Path(s, Lifted(run, pid), r) && SlabsRuns.SafelyReachable(r) && After(s, r, pid, q)
    ensures HasStat(run) ==> s.slabs[pid].arena < |s.arenas| && r.arenas[s.slabs[pid].arena].lock == None
    decreases |run|
  {
    if run == [] {
      AfterNothing(s, pid);
      r := s;
    } else {
      var prefix, a := run[..|run| - 1], run[|run| - 1];
      var p := Exec(PageOf(s, pid), prefix).value;
      PrefixIsCall(run, t);
      var s1 := Lift(s, t, pid, prefix, p);
      assert |run| == 1 ==> prefix == [] && s1 == s;
      r := LiftStep(s1, pid, a);
      MoreMoves(s, Lifted(prefix, pid), s1, Act(pid, a), r);
      AfterMore(s, s1, r, pid, p, q);
    }
  }

  lemma PrefixIsCall(run: seq<Action>, t: Tid)
    requires run != [] && OneCall(run, t)
    ensures OneCall(run[..|run| - 1], t) && HasStat(run) == (HasStat(run[..|run| - 1]) || run[|run| - 1].SlowStat?)
    ensures var a := run[|run| - 1]; !a.ClientWrite? && !a.Exit? && a.t == t && (|run| > 1 ==> !Begins(a))
  {
    var prefix := run[..|run| - 1];
    assert run == prefix + [run[|run| - 1]];
    assert forall b | b in prefix :: b in run;
  }

  // ---- the calls ----

  lemma ReadyBetween(s: Sys, t: Tid, pid: Pid)
    requires SlabsRuns.SafelyReachable(s) && t in s.tlds && Quiet(s, t) && pid in s.slabs && !PageOf(s, pid).aborted
    ensures Ready(PageOf(s, pid), t) && Reachable(PageOf(s, pid))
  {
    SafeIsSound(s);
    SafelyIsReachable(s, pid);
    assert SlabOk(s, pid) && TldOk(s, t);
  }

  lemma BetweenAgain(s: Sys, r: Sys, t: Tid, pid: Pid, q: Page)
    requires Between(s, t) && After(s, r, pid, q) && t !in q.ops
    ensures Between(r, t)
  {
  }

  /** Steps inside an operation of thread `t`. */
  predicate Inners(run: seq<Action>, t: Tid) { forall a | a in run :: Inner(a) && a.t == t }

  lemma InnersJoin(run: seq<Action>, run': seq<Action>, t: Tid)
    requires Inners(run, t) && Inners(run', t)
    ensures Inners(run + run', t)
  {
  }

  /** A step that begins an operation, and then steps inside it. */
  lemma InnerRest(a: Action, rest: seq<Action>, t: Tid)
    requires !a.ClientWrite? && !a.Exit? && a.t == t && Inners(rest, t)
    ensures OneCall([a] + rest, t)
  {
    forall i | 0 < i < |[a] + rest| ensures Inner(([a] + rest)[i]) { assert ([a] + rest)[i] == rest[i - 1]; }
  }

  lemma PushIsCall(p: Page, t: Tid)
    ensures Inners([OwnerLoad(t)] + PushActs(p, t) + [UsedSub(t), StatFree(t)], t)
  {
    InnersJoin([RemoteLoad(t), RemoteLink(t)], [RemoteCas(t), RemoteCount(t)], t);
    InnersJoin([OwnerLoad(t)], PushActs(p, t), t);
    InnersJoin([OwnerLoad(t)] + PushActs(p, t), [UsedSub(t), StatFree(t)], t);
  }

  lemma FreeIsCall(p: Page, t: Tid, k: nat)
    ensures OneCall(FreeActs(p, t, k), t)
    ensures FreeActs(p, t, k)[0] == if p.debug then FreeCall(t, k) else FreeUnchecked(t, k)
  {
    var tail := [OwnerLoad(t)] + PushActs(p, t) + [UsedSub(t), StatFree(t)];
    PushIsCall(p, t);
    InnersJoin([Check(t)], tail, t);
    if p.debug {
      InnerRest(FreeCall(t, k), [Check(t)] + tail, t);
      assert FreeActs(p, t, k) == [FreeCall(t, k)] + ([Check(t)] + tail);
    } else {
      InnerRest(FreeUnchecked(t, k), tail, t);
      assert FreeActs(p, t, k) == [FreeUnchecked(t, k)] + tail;
    }
  }

  /** Any thread between two calls can free any live slot: onto the local list as the owner, onto the remote stack
      otherwise. Then it is between two calls again. */
  lemma FreeCompletes(s: Sys, t: Tid, pid: Pid, k: nat) returns (r: Sys)
    requires SlabsRuns.SafelyReachable(s) && Between(s, t) && pid in s.slabs && !PageOf(s, pid).aborted
    requires k in PageOf(s, pid).live
    ensures Path(s, Lifted(FreeActs(PageOf(s, pid), t, k), pid), r) && SlabsRuns.SafelyReachable(r) && Between(r, t)
    ensures r.slabs == s.slabs[pid := s.slabs[pid].(page := F.FreedBy(PageOf(s, pid), t, k))]
  {
    var p := PageOf(s, pid);
    ReadyBetween(s, t, pid);
    FreeRuns(p, t, k);
    FreeIsCall(p, t, k);
    r := Lift(s, t, pid, FreeActs(p, t, k), F.FreedBy(p, t, k));
    BetweenAgain(s, r, t, pid, F.FreedBy(p, t, k));
  }

  lemma {:induction false} WalkIsCall(t: Tid, n: nat)
    ensures Inners(WalkActs(t, n), t)
  {
    if n > 0 {
      WalkIsCall(t, n - 1);
      InnersJoin([Walk(t)], WalkActs(t, n - 1), t);
    }
  }

  lemma CollectIsCall(t: Tid, n: nat)
    requires n > 0
    ensures Inners(CollectActs(t, n), t)
  {
    WalkIsCall(t, n - 1);
    InnersJoin([CollectLoad(t), CollectCas(t)], WalkActs(t, n - 1), t);
    InnersJoin([CollectLoad(t), CollectCas(t)] + WalkActs(t, n - 1), [Splice(t), Subtract(t)], t);
  }

  lemma TakeIsCall(a: Action, t: Tid)
    requires a == PopWrite(t) || a == BumpWrite(t)
    ensures Inners([a] + [CountUsed(t), Mark(t), FastStat(t)], t)
  {
    InnersJoin([a], [CountUsed(t), Mark(t), FastStat(t)], t);
  }

  lemma FastIsCall(p: Page, t: Tid, remote: seq<nat>)
    ensures OneCall(FastActs(p, t, remote), t) && FastActs(p, t, remote)[0] == FastTry(t)
  {
    var pop := [PopWrite(t)] + [CountUsed(t), Mark(t), FastStat(t)];
    TakeIsCall(PopWrite(t), t);
    TakeIsCall(BumpWrite(t), t);
    if remote != [] {
      CollectIsCall(t, |remote|);
      InnersJoin(CollectActs(t, |remote|), pop, t);
    }
    InnerRest(FastTry(t), FastActs(p, t, remote)[1..], t);
    assert FastActs(p, t, remote) == [FastTry(t)] + FastActs(p, t, remote)[1..];
  }

  /** A thread between two calls can allocate from its cached page: from the local list, the virgin slots, or the
      remote stack, or else drop the page. */
  lemma FastCompletes(s: Sys, t: Tid, b: nat) returns (r: Sys, remote: seq<nat>)
    requires SlabsRuns.SafelyReachable(s) && Between(s, t) && b in s.tlds[t].binPage
    requires s.tlds[t].binPage[b] in s.slabs ==> !PageOf(s, s.tlds[t].binPage[b]).aborted
    ensures var pid := s.tlds[t].binPage[b];
            && pid in s.slabs && Chain(PageOf(s, pid).link, PageOf(s, pid).head.ptr, remote)
            && Path(s, Lifted(FastActs(PageOf(s, pid), t, remote), pid), r)
            && r.slabs == s.slabs[pid := s.slabs[pid].(page := F.Drawn(PageOf(s, pid), t, remote))]
    ensures SlabsRuns.SafelyReachable(r) && Between(r, t)
  {
    var pid := s.tlds[t].binPage[b];
    SafeIsSound(s);
    assert TldOk(s, t);
    var p := PageOf(s, pid);
    ReadyBetween(s, t, pid);
    remote := FastRuns(p, t);
    FastIsCall(p, t, remote);
    r := Lift(s, t, pid, FastActs(p, t, remote), F.Drawn(p, t, remote));
    BetweenAgain(s, r, t, pid, F.Drawn(p, t, remote));
  }

  lemma RestIsCall(t: Tid)
    ensures Inners(RestActs(t, true), t) && OneCall(RestActs(t, true), t) && !Begins(RestActs(t, true)[0])
    ensures HasStat(RestActs(t, true))
  {
    var rest := RestActs(t, true);
    assert rest == [SlowWrite(t)] + [CountUsed(t), Mark(t), SlowStat(t), Claim(t)];
    InnersJoin([SlowWrite(t)], [CountUsed(t), Mark(t), SlowStat(t), Claim(t)], t);
    InnerRest(SlowWrite(t), [CountUsed(t), Mark(t), SlowStat(t), Claim(t)], t);
    assert rest[3] == SlowStat(t) && rest[3] in rest;
  }

  lemma SlowIsCall(t: Tid)
    ensures OneCall(SlowActs(t, true), t) && SlowActs(t, true)[0] == SlowTest(t) && HasStat(SlowActs(t, true))
  {
    var run, rest := SlowActs(t, true), RestActs(t, true);
    RestIsCall(t);
    InnersJoin([SlowRead(t)], rest, t);
    InnerRest(SlowTest(t), [SlowRead(t)] + rest, t);
    assert run == [SlowTest(t)] + ([SlowRead(t)] + rest);
    assert run[5] == rest[3] == SlowStat(t) && run[5] in run;
  }

  lemma TakeLock(s: Sys, t: Tid) returns (r: Sys)
    requires SlabsRuns.SafelyReachable(s) && Between(s, t) && s.tlds[t].arena.Some?
    requires Unlocked(s, s.tlds[t].arena.value)
    ensures Path(s, [Lock(t)], r) && SlabsRuns.SafelyReachable(r)
    ensures r == s.(arenas := SetLock(s.arenas, s.tlds[t].arena.value, Some(t)))
  {
    SafeIsSound(s);
    r := s.(arenas := SetLock(s.arenas, s.tlds[t].arena.value, Some(t)));
    StaysReachable(s, Lock(t), r);
    OneMove(s, Lock(t), r);
  }

  /** A call under the lock of arena `a`, which was taken at `s`, and which the call gives back. */
  lemma LockedCall(s: Sys, s1: Sys, t: Tid, pid: Pid, run: seq<Action>, q: Page) returns (r: Sys)
    requires Between(s, t) && SlabsRuns.SafelyReachable(s1) && pid in s1.slabs && Runs(PageOf(s1, pid), run, q)
    requires OneCall(run, t) && HasStat(run) && t !in q.ops
    requires run != [] && Begins(run[0]) ==> Fits(s1, pid, s1.slabs[pid], run[0])
    requires t in s1.tlds && forall i | i in s1.slabs && i != pid :: t !in s1.slabs[i].page.ops
    requires s1.arenas == SetLock(s.arenas, s1.slabs[pid].arena, Some(t))
    ensures Path(s1, Lifted(run, pid), r) && SlabsRuns.SafelyReachable(r) && Between(r, t)
    ensures r.slabs == s1.slabs[pid := s1.slabs[pid].(page := q)]
  {
    r := Lift(s1, t, pid, run, q);
  }

  /** A thread between two calls, with no page cached for the bin and the lock of its arena free, can bump an unowned
      page of the arena with virgin slots, which makes it the owner. */
  lemma SlowCompletes(s: Sys, t: Tid, pid: Pid) returns (r: Sys)
    requires SlabsRuns.SafelyReachable(s) && Between(s, t) && pid in s.slabs && !PageOf(s, pid).aborted
    requires s.tlds[t].arena == Some(s.slabs[pid].arena) && Unlocked(s, s.slabs[pid].arena)
    requires s.slabs[pid].bin !in s.tlds[t].binPage
    requires PageOf(s, pid).owner.None? && PageOf(s, pid).bump < PageOf(s, pid).cap
    ensures Path(s, [Lock(t)] + Lifted(SlowActs(t, true), pid), r) && SlabsRuns.SafelyReachable(r) && Between(r, t)
    ensures r.slabs == s.slabs[pid := s.slabs[pid].(page := F.Claimed(PageOf(s, pid), t, true))]
  {
    var p, a := PageOf(s, pid), s.slabs[pid].arena;
    ReadyBetween(s, t, pid);
    SafeIsSound(s);
    assert SlabOk(s, pid);
    SlowRuns(p, t, true);
    SlowIsCall(t);
    var s1 := TakeLock(s, t);
    assert Scanning(s1, t, a, s1.slabs[pid].bin);
    r := LockedCall(s, s1, t, pid, SlowActs(t, true), F.Claimed(p, t, true));
    JoinMoves(s, [Lock(t)], s1, Lifted(SlowActs(t, true), pid), r);
  }

  lemma MakePage(s: Sys, t: Tid, pid: Pid, bin: nat, size: nat, debug: bool, link: seq<Ptr>) returns (r: Sys)
    requires SlabsRuns.SafelyReachable(s) && InArena(s, t) && bin !in s.tlds[t].binPage && pid !in s.slabs
    requires 0 < |link| <= 4096
    ensures Path(s, [NewPage(t, pid, bin, size, debug, link)], r) && SlabsRuns.SafelyReachable(r)
    ensures r == DoNewPage(s, t, pid, bin, size, debug, link)
  {
    SafeIsSound(s);
    var m := NewPage(t, pid, bin, size, debug, link);
    r := DoNewPage(s, t, pid, bin, size, debug, link);
    StaysReachable(s, m, r);
    OneMove(s, m, r);
  }

  /** It can also make a new page, of which it gets the first slot and becomes the owner. */
  lemma NewCompletes(s: Sys, t: Tid, pid: Pid, bin: nat, size: nat, debug: bool, link: seq<Ptr>) returns (r: Sys)
    requires SlabsRuns.SafelyReachable(s) && Between(s, t) && s.tlds[t].arena.Some?
    requires Unlocked(s, s.tlds[t].arena.value) && bin !in s.tlds[t].binPage && pid !in s.slabs && 0 < |link| <= 4096
    ensures Path(s, [Lock(t)] + [NewPage(t, pid, bin, size, debug, link)] + Lifted(RestActs(t, true), pid), r)
    ensures SlabsRuns.SafelyReachable(r) && Between(r, t)
    ensures var blank := Fresh(65536, debug, link, s.exited, t).(ops := map[], lock := None);
            r.slabs == s.slabs[pid := Slab(F.Claimed(blank, t, true), bin, s.tlds[t].arena.value, size)]
  {
    var m := NewPage(t, pid, bin, size, debug, link);
    NotExited(s, t);
    var s1 := LockAndMake(s, t, pid, bin, size, debug, link);
    r := FreshCall(s, s1, t, pid, TAG_COUNT, debug, link);
    JoinMoves(s, [Lock(t)] + [m], s1, Lifted(RestActs(t, true), pid), r);
  }

  lemma LockAndMake(s: Sys, t: Tid, pid: Pid, bin: nat, size: nat, debug: bool, link: seq<Ptr>) returns (r: Sys)
    requires SlabsRuns.SafelyReachable(s) && Between(s, t) && s.tlds[t].arena.Some?
    requires Unlocked(s, s.tlds[t].arena.value) && bin !in s.tlds[t].binPage && pid !in s.slabs && 0 < |link| <= 4096
    ensures Path(s, [Lock(t)] + [NewPage(t, pid, bin, size, debug, link)], r) && SlabsRuns.SafelyReachable(r)
    ensures r.slabs ==
      s.slabs[pid := Slab(Fresh(TAG_COUNT, debug, link, s.exited, t), bin, s.tlds[t].arena.value, size)]
    ensures r.tlds == s.tlds && r.arenas == SetLock(s.arenas, s.tlds[t].arena.value, Some(t))
  {
    var s1 := TakeLock(s, t);
    r := MakePage(s1, t, pid, bin, size, debug, link);
    JoinMoves(s, [Lock(t)], s1, [NewPage(t, pid, bin, size, debug, link)], r);
  }

  lemma NotExited(s: Sys, t: Tid)
    requires SlabsRuns.SafelyReachable(s) && t in s.tlds
    ensures t !in s.exited
  {
    SafeIsSound(s);
    assert TldOk(s, t);
  }

  lemma FreshCall(s: Sys, s1: Sys, t: Tid, pid: Pid, tagMod: nat, debug: bool, link: seq<Ptr>) returns (r: Sys)
    requires Between(s, t) && SlabsRuns.SafelyReachable(s1) && pid in s1.slabs && t !in s.exited && link != []
    requires PageOf(s1, pid) == Fresh(tagMod, debug, link, s.exited, t)
    requires t in s1.tlds && forall i | i in s1.slabs && i != pid :: t !in s1.slabs[i].page.ops
    requires s1.arenas == SetLock(s.arenas, s1.slabs[pid].arena, Some(t))
    ensures Path(s1, Lifted(RestActs(t, true), pid), r) && SlabsRuns.SafelyReachable(r) && Between(r, t)
    ensures var blank := Fresh(tagMod, debug, link, s.exited, t).(ops := map[], lock := None);
            r.slabs == s1.slabs[pid := s1.slabs[pid].(page := F.Claimed(blank, t, true))]
  {
    FreshRuns(tagMod, debug, link, s.exited, t, true);
    RestIsCall(t);
    var blank := Fresh(tagMod, debug, link, s.exited, t).(ops := map[], lock := None);
    r := LockedCall(s, s1, t, pid, RestActs(t, true), F.Claimed(blank, t, true));
  }

  /** Threads may come, get an arena when they have none, give a lock back and end between two calls. */
  lemma OtherMoves(s: Sys, t: Tid, a: nat)
    requires SlabsRuns.SafelyReachable(s)
    ensures Leads(s, Spawn, DoSpawn(s))
    ensures t in s.tlds && s.tlds[t].arena.None? && a < |s.arenas| ==>
      Leads(s, Attach(t, a), s.(tlds := s.tlds[t := s.tlds[t].(arena := Some(a))]))
    ensures InArena(s, t) ==> Leads(s, Unlock(t), s.(arenas := SetLock(s.arenas, s.tlds[t].arena.value, None)))
    ensures Between(s, t) ==> Leads(s, ThreadExit(t), DoThreadExit(s, t))
  {
    SafeIsSound(s);
  }

  /** A thread inside a call on a page can finish it by moves of its own. */
  lemma CallFinishes(s: Sys, t: Tid, pid: Pid) returns (run: seq<Action>, r: Sys)
    requires SlabsRuns.SafelyReachable(s) && pid in s.slabs && !PageOf(s, pid).aborted && t in PageOf(s, pid).ops
    ensures Path(s, Lifted(run, pid), r) && SlabsRuns.SafelyReachable(r) && pid in r.slabs
    ensures OneCall(run, t) && |run| <= PageOf(s, pid).cap + 11
    ensures t !in PageOf(r, pid).ops || PageOf(r, pid).aborted
  {
    SafelyIsReachable(s, pid);
    var q;
    run, q := Finishes(PageOf(s, pid), t);
    assert run != [] ==> !Begins(run[0]);
    r := Lift(s, t, pid, run, q);
  }
}
