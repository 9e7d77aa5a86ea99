/** The runs of a page contain its operations: from every reachable state, whatever the other threads are doing, the
    steps of one thread carry its operation through, with the result of the closed form. */
module PageCalls {
  import opened Basics
  import opened PageProtocol
  import opened PageInvariant
  import opened PageSteps
  import opened PageRuns
  import F = PageForms

  /** The thread may begin an operation. */
  predicate Ready(p: Page, t: Tid) { Idle(p, t) && !p.aborted }

  /** Page `p` with thread `t` at position `pc`. */
  function In(p: Page, t: Tid, pc: PC): Page { p.(ops := p.ops[t := pc]) }

  predicate Goes(p: Page, a: Action, q: Page) { Ok(p, a) && Apply(p, a) == q }

  predicate Runs(p: Page, run: seq<Action>, q: Page) { Exec(p, run) == Some(q) }

  lemma Then(p: Page, run: seq<Action>, q: Page, a: Action, r: Page)
    requires Runs(p, run, q) && Goes(q, a, r)
    ensures Runs(p, run + [a], r)
  {
    assert (run + [a])[..|run|] == run;
  }

  lemma {:induction false} Join(p: Page, run: seq<Action>, q: Page, run': seq<Action>, r: Page)
    requires Runs(p, run, q) && Runs(q, run', r)
    ensures Runs(p, run + run', r)
    decreases |run'|
  {
    if run' == [] {
      assert run + run' == run;
    } else {
      var prefix, a := run'[..|run'| - 1], run'[|run'| - 1];
      Join(p, run, q, prefix, Exec(q, prefix).value);
      Then(p, run + prefix, Exec(q, prefix).value, a, r);
      assert run + prefix + [a] == run + run';
    }
  }

  lemma One(p: Page, a: Action, q: Page)
    requires Goes(p, a, q)
    ensures Runs(p, [a], q)
  {
    assert [a][..0] == [];
  }

  lemma Two(p: Page, a: Action, q: Page, b: Action, r: Page)
    requires Goes(p, a, q) && Goes(q, b, r)
    ensures Runs(p, [a, b], r)
  {
    One(p, a, q);
    Then(p, [a], q, b, r);
    assert [a] + [b] == [a, b];
  }

  /** Where a thread stands now is all that counts. */
  lemma Moved(ops: map<Tid, PC>, t: Tid, pc: PC, pc': PC)
    requires t !in ops
    ensures ops[t := pc][t := pc'] == ops[t := pc'] && ops[t := pc] - {t} == ops
  {
  }

  // ---- free ----

  function GiveActs(p: Page, t: Tid, k: nat): seq<Action> {
    if p.debug then [FreeCall(t, k), Check(t)] else [FreeUnchecked(t, k)]
  }

  function PushActs(p: Page, t: Tid): seq<Action> {
    if p.owner == Some(t) then [LocalLink(t), LocalPush(t)]
    else [RemoteLoad(t), RemoteLink(t)] + [RemoteCas(t), RemoteCount(t)]
  }

  lemma GiveUp(p: Page, t: Tid, k: nat)
    requires Ready(p, t) && k in p.live && (p.debug ==> k in p.bitmap)
    ensures Runs(p, GiveActs(p, t, k), In(F.Returned(p, k), t, Freeing(k)))
  {
    if p.debug { CheckedCall(p, t, k); } else { One(p, FreeUnchecked(t, k), In(F.Returned(p, k), t, Freeing(k))); }
  }

  lemma CheckedCall(p: Page, t: Tid, k: nat)
    requires Ready(p, t) && k in p.live && p.debug && k in p.bitmap
    ensures Runs(p, [FreeCall(t, k), Check(t)], In(F.Returned(p, k), t, Freeing(k)))
  {
    Moved(p.ops, t, Checking(k), Freeing(k));
    Two(p, FreeCall(t, k), In(p, t, Checking(k)), Check(t), In(F.Returned(p, k), t, Freeing(k)));
  }

  lemma LoadOwner(p: Page, t: Tid, k: nat)
    requires Ready(p, t)
    ensures Goes(In(p, t, Freeing(k)), OwnerLoad(t),
                 In(p, t, if p.owner == Some(t) then LocalFree(k) else RemoteFree(k)))
  {
    Moved(p.ops, t, Freeing(k), if p.owner == Some(t) then LocalFree(k) else RemoteFree(k));
  }

  lemma PushLocal(p: Page, t: Tid, k: nat)
    requires Ready(p, t)
    ensures Runs(In(p, t, LocalFree(k)), [LocalLink(t), LocalPush(t)],
                 In(p.(link := Store(p, k, p.localHead), localHead := At(k), localCount := Add16(p.localCount, 1)),
                    t, LocalPushed))
  {
    Moved(p.ops, t, LocalFree(k), LocalLinked(k));
    Moved(p.ops, t, LocalLinked(k), LocalPushed);
    var p1 := p.(link := Store(p, k, p.localHead));
    Two(In(p, t, LocalFree(k)), LocalLink(t), In(p1, t, LocalLinked(k)), LocalPush(t),
        In(p1.(localHead := At(k), localCount := Add16(p.localCount, 1)), t, LocalPushed));
  }

  lemma LinkRemote(p: Page, t: Tid, k: nat)
    requires Ready(p, t)
    ensures Runs(In(p, t, RemoteFree(k)), [RemoteLoad(t), RemoteLink(t)],
                 In(p.(link := Store(p, k, p.head.ptr)), t, RemoteLinked(k, p.head)))
  {
    Moved(p.ops, t, RemoteFree(k), RemoteLoaded(k, p.head));
    Moved(p.ops, t, RemoteLoaded(k, p.head), RemoteLinked(k, p.head));
    Two(In(p, t, RemoteFree(k)), RemoteLoad(t), In(p, t, RemoteLoaded(k, p.head)), RemoteLink(t),
        In(p.(link := Store(p, k, p.head.ptr)), t, RemoteLinked(k, p.head)));
  }

  lemma PushRemote(p: Page, t: Tid, k: nat)
    requires Ready(p, t)
    ensures Runs(In(p, t, RemoteLinked(k, p.head)), [RemoteCas(t), RemoteCount(t)],
                 In(p.(head := Word(At(k), NextTag(p.head.tag, p.tagMod)), remoteCount := Add16(p.remoteCount, 1)),
                    t, RemoteCounted))
  {
    Moved(p.ops, t, RemoteLinked(k, p.head), RemotePushed);
    Moved(p.ops, t, RemotePushed, RemoteCounted);
    var p1 := p.(head := Word(At(k), NextTag(p.head.tag, p.tagMod)));
    Two(In(p, t, RemoteLinked(k, p.head)), RemoteCas(t), In(p1, t, RemotePushed), RemoteCount(t),
        In(p1.(remoteCount := Add16(p.remoteCount, 1)), t, RemoteCounted));
  }

  lemma EndFree(p: Page, t: Tid, pc: PC)
    requires Ready(p, t) && (pc == LocalPushed || pc == RemoteCounted)
    ensures Runs(In(p, t, pc), [UsedSub(t), StatFree(t)], p.(used := Sub16(p.used, 1)))
  {
    Moved(p.ops, t, pc, FreeStat(pc.LocalPushed?));
    Moved(p.ops, t, FreeStat(pc.LocalPushed?), pc);
    var p1 := p.(used := Sub16(p.used, 1));
    Two(In(p, t, pc), UsedSub(t), In(p1, t, FreeStat(pc.LocalPushed?)), StatFree(t), p1);
  }

  /** The steps of a free that no compare-and-swap of another thread disturbs. */
  function FreeActs(p: Page, t: Tid, k: nat): seq<Action> {
    GiveActs(p, t, k) + [OwnerLoad(t)] + PushActs(p, t) + [UsedSub(t), StatFree(t)]
  }

  lemma FreeBody(p: Page, t: Tid, k: nat)
    requires Ready(p, t)
    ensures var q := if p.owner == Some(t)
                     then p.(link := Store(p, k, p.localHead), localHead := At(k), localCount := Add16(p.localCount, 1))
                     else p.(link := Store(p, k, p.head.ptr), head := Word(At(k), NextTag(p.head.tag, p.tagMod)),
                             remoteCount := Add16(p.remoteCount, 1));
            Runs(In(p, t, if p.owner == Some(t) then LocalFree(k) else RemoteFree(k)), PushActs(p, t),
                 In(q, t, if p.owner == Some(t) then LocalPushed else RemoteCounted))
  {
    if p.owner == Some(t) {
      PushLocal(p, t, k);
    } else {
      LinkRemote(p, t, k);
      var p1 := p.(link := Store(p, k, p.head.ptr));
      PushRemote(p1, t, k);
      Join(In(p, t, RemoteFree(k)), [RemoteLoad(t), RemoteLink(t)], In(p1, t, RemoteLinked(k, p.head)),
           [RemoteCas(t), RemoteCount(t)],
           In(p1.(head := Word(At(k), NextTag(p.head.tag, p.tagMod)), remoteCount := Add16(p.remoteCount, 1)),
              t, RemoteCounted));
    }
  }

  lemma FreeSteps(p: Page, t: Tid, k: nat)
    requires Ready(p, t) && k in p.live && (p.debug ==> k in p.bitmap)
    ensures Runs(p, FreeActs(p, t, k), F.FreedBy(p, t, k))
  {
    var give, body := GiveActs(p, t, k), PushActs(p, t);
    var p1 := F.Returned(p, k);
    GiveUp(p, t, k);
    LoadOwner(p1, t, k);
    var pc := if p.owner == Some(t) then LocalFree(k) else RemoteFree(k);
    Then(p, give, In(p1, t, Freeing(k)), OwnerLoad(t), In(p1, t, pc));
    FreeBody(p1, t, k);
    var p2 := F.FreedBy(p, t, k).(used := p.used);
    var end := if p.owner == Some(t) then LocalPushed else RemoteCounted;
    Join(p, give + [OwnerLoad(t)], In(p1, t, pc), body, In(p2, t, end));
    EndFree(p2, t, end);
    Join(p, give + [OwnerLoad(t)] + body, In(p2, t, end), [UsedSub(t), StatFree(t)], F.FreedBy(p, t, k));
  }

  /** From every reachable state the free of a live slot can run to its end, onto the local list or onto the remote
      stack, whatever is on them and wherever the other threads are. */
  lemma FreeRuns(p: Page, t: Tid, k: nat)
    requires Reachable(p) && Ready(p, t) && k in p.live
    ensures Runs(p, FreeActs(p, t, k), F.FreedBy(p, t, k))
  {
    ReachableInv(p);
    var v :| Inv(p, v);
    FreeSteps(p, t, k);
  }

  // ---- allocation from the cached page ----

  lemma CountAndMark(p: Page, t: Tid, k: nat, path: Path)
    requires Ready(p, t) && (p.debug ==> k !in p.bitmap)
    ensures Runs(In(p, t, Got(k, path)), [CountUsed(t), Mark(t)], In(F.Handed(p, k), t, Marked(path)))
  {
    Moved(p.ops, t, Got(k, path), Counted(k, path));
    Moved(p.ops, t, Counted(k, path), Marked(path));
    Two(In(p, t, Got(k, path)), CountUsed(t), In(p.(used := Add16(p.used, 1)), t, Counted(k, path)), Mark(t),
        In(F.Handed(p, k), t, Marked(path)));
  }

  lemma EndFast(p: Page, t: Tid, k: nat)
    requires Ready(p, t) && (p.debug ==> k !in p.bitmap)
    ensures Runs(In(p, t, Got(k, Fast)), [CountUsed(t), Mark(t), FastStat(t)], F.Handed(p, k))
  {
    CountAndMark(p, t, k, Fast);
    Moved(p.ops, t, Marked(Fast), Marked(Fast));
    var q := F.Handed(p, k);
    Then(In(p, t, Got(k, Fast)), [CountUsed(t), Mark(t)], In(q, t, Marked(Fast)), FastStat(t), q);
    assert [CountUsed(t), Mark(t)] + [FastStat(t)] == [CountUsed(t), Mark(t), FastStat(t)];
  }

  lemma PopSteps(p: Page, t: Tid)
    requires Ready(p, t) && p.localHead.At? && (p.debug ==> p.localHead.slot !in p.bitmap)
    ensures Runs(In(p, t, Popping(p.localHead.slot, Load(p, p.localHead.slot))),
                 [PopWrite(t)] + [CountUsed(t), Mark(t), FastStat(t)], F.Popped(p))
  {
    var k := p.localHead.slot;
    Moved(p.ops, t, Popping(k, Load(p, k)), Got(k, Fast));
    var p1 := p.(localHead := Load(p, k), localCount := Sub16(p.localCount, 1));
    One(In(p, t, Popping(k, Load(p, k))), PopWrite(t), In(p1, t, Got(k, Fast)));
    EndFast(p1, t, k);
    Join(In(p, t, Popping(k, Load(p, k))), [PopWrite(t)], In(p1, t, Got(k, Fast)),
         [CountUsed(t), Mark(t), FastStat(t)], F.Popped(p));
  }

  lemma BumpSteps(p: Page, t: Tid)
    requires Ready(p, t) && (p.debug ==> p.bump !in p.bitmap)
    ensures Runs(In(p, t, Bumping(p.bump)), [BumpWrite(t)] + [CountUsed(t), Mark(t), FastStat(t)], F.Bumped(p))
  {
    Moved(p.ops, t, Bumping(p.bump), Got(p.bump, Fast));
    var p1 := p.(bump := p.bump + 1);
    One(In(p, t, Bumping(p.bump)), BumpWrite(t), In(p1, t, Got(p.bump, Fast)));
    EndFast(p1, t, p.bump);
    Join(In(p, t, Bumping(p.bump)), [BumpWrite(t)], In(p1, t, Got(p.bump, Fast)),
         [CountUsed(t), Mark(t), FastStat(t)], F.Bumped(p));
  }

  /** The walk along a collected list of `n` more elements. */
  function WalkActs(t: Tid, n: nat): seq<Action> {
    if n == 0 then [WalkEnd(t)] else [Walk(t)] + WalkActs(t, n - 1)
  }

  lemma {:induction false} WalkSteps(p: Page, t: Tid, list: seq<nat>, i: nat)
    requires Ready(p, t) && i < |list| < COUNTER_MOD && Chain(p.link, At(list[0]), list)
    ensures Runs(In(p, t, Walking(list[0], list[i], i)), WalkActs(t, |list| - 1 - i),
                 In(p, t, Splicing(list[0], list[|list| - 1], |list|)))
    decreases |list| - i
  {
    assert Fetch(p.link, list[i]) == After(list, i);
    var pc := Walking(list[0], list[i], i);
    if i + 1 == |list| {
      Moved(p.ops, t, pc, Splicing(list[0], list[i], i + 1));
      One(In(p, t, pc), WalkEnd(t), In(p, t, Splicing(list[0], list[i], i + 1)));
    } else {
      var next := Walking(list[0], list[i + 1], i + 1);
      Moved(p.ops, t, pc, next);
      One(In(p, t, pc), Walk(t), In(p, t, next));
      WalkSteps(p, t, list, i + 1);
      Join(In(p, t, pc), [Walk(t)], In(p, t, next), WalkActs(t, |list| - 2 - i),
           In(p, t, Splicing(list[0], list[|list| - 1], |list|)));
    }
  }

  /** The collect of the whole stack. */
  function CollectActs(t: Tid, n: nat): seq<Action>
    requires n > 0
  {
    [CollectLoad(t), CollectCas(t)] + WalkActs(t, n - 1) + [Splice(t), Subtract(t)]
  }

  lemma TakeStack(p: Page, t: Tid)
    requires Ready(p, t) && p.head.ptr.At?
    ensures Runs(In(p, t, Collecting), [CollectLoad(t), CollectCas(t)],
                 In(p.(head := Word(Null, NextTag(p.head.tag, p.tagMod))), t,
                    Walking(p.head.ptr.slot, p.head.ptr.slot, 0)))
  {
    var k := p.head.ptr.slot;
    Moved(p.ops, t, Collecting, CollectLoaded(p.head));
    Moved(p.ops, t, CollectLoaded(p.head), Walking(k, k, 0));
    Two(In(p, t, Collecting), CollectLoad(t), In(p, t, CollectLoaded(p.head)), CollectCas(t),
        In(p.(head := Word(Null, NextTag(p.head.tag, p.tagMod))), t, Walking(k, k, 0)));
  }

  lemma SpliceSteps(p: Page, t: Tid, list: seq<nat>)
    requires Ready(p, t) && list != [] && Chain(p.link, At(list[0]), list) && p.localHead.Null?
    ensures Runs(In(p, t, Splicing(list[0], list[|list| - 1], |list|)), [Splice(t), Subtract(t)],
                 In(p.(localHead := At(list[0]), localCount := Add16(p.localCount, |list|),
                       remoteCount := Sub16(p.remoteCount, |list|)), t, Popping(list[0], Load(p, list[0]))))
  {
    var n, tail := |list|, list[|list| - 1];
    assert tail in list && Fetch(p.link, tail) == After(list, n - 1);
    assert Store(p, tail, p.localHead) == p.link;
    Moved(p.ops, t, Splicing(list[0], tail, n), Subtracting(n));
    Moved(p.ops, t, Subtracting(n), Popping(list[0], Load(p, list[0])));
    var p1 := p.(localHead := At(list[0]), localCount := Add16(p.localCount, n));
    Two(In(p, t, Splicing(list[0], tail, n)), Splice(t), In(p1, t, Subtracting(n)), Subtract(t),
        In(p1.(remoteCount := Sub16(p.remoteCount, n)), t, Popping(list[0], Load(p, list[0]))));
  }

  lemma CollectSteps(p: Page, t: Tid, remote: seq<nat>)
    requires Ready(p, t) && 0 < |remote| < COUNTER_MOD && Chain(p.link, p.head.ptr, remote) && p.localHead.Null?
    ensures Runs(In(p, t, Collecting), CollectActs(t, |remote|),
                 In(F.Regained(p, |remote|), t, Popping(remote[0], Load(p, remote[0]))))
  {
    TakeStack(p, t);
    var p1, n := p.(head := Word(Null, NextTag(p.head.tag, p.tagMod))), |remote|;
    WalkSteps(p1, t, remote, 0);
    var splicing := Splicing(remote[0], remote[n - 1], n);
    Join(In(p, t, Collecting), [CollectLoad(t), CollectCas(t)], In(p1, t, Walking(remote[0], remote[0], 0)),
         WalkActs(t, n - 1), In(p1, t, splicing));
    SpliceSteps(p1, t, remote);
    Join(In(p, t, Collecting), [CollectLoad(t), CollectCas(t)] + WalkActs(t, n - 1), In(p1, t, splicing),
         [Splice(t), Subtract(t)], In(F.Regained(p, n), t, Popping(remote[0], Load(p, remote[0]))));
  }

  /** The steps of an allocation from the cached page. */
  function FastActs(p: Page, t: Tid, remote: seq<nat>): seq<Action> {
    [FastTry(t)] +
    if p.localHead.At? then [PopWrite(t)] + [CountUsed(t), Mark(t), FastStat(t)]
    else if p.bump < p.cap then [BumpWrite(t)] + [CountUsed(t), Mark(t), FastStat(t)]
    else if remote != [] then
      CollectActs(t, |remote|) + ([PopWrite(t)] + [CountUsed(t), Mark(t), FastStat(t)])
    else [CollectLoad(t), Drop(t)]
  }

  lemma DropSteps(p: Page, t: Tid)
    requires Ready(p, t) && p.head.ptr.Null?
    ensures Runs(In(p, t, Collecting), [CollectLoad(t), Drop(t)], p.(cached := p.cached - {t}))
  {
    Moved(p.ops, t, Collecting, Dropping);
    Moved(p.ops, t, Dropping, Dropping);
    Two(In(p, t, Collecting), CollectLoad(t), In(p, t, Dropping), Drop(t), p.(cached := p.cached - {t}));
  }

  lemma FastBody(p: Page, t: Tid, remote: seq<nat>)
    requires Ready(p, t) && |remote| < COUNTER_MOD && Chain(p.link, p.head.ptr, remote)
    requires p.debug ==>
      && (p.localHead.At? ==> p.localHead.slot !in p.bitmap) && (p.bump < p.cap ==> p.bump !in p.bitmap)
      && (remote != [] ==> remote[0] !in p.bitmap)
    ensures Runs(In(p, t, Stage(p)), FastActs(p, t, remote)[1..], F.Drawn(p, t, remote))
  {
    if p.localHead.At? {
      PopSteps(p, t);
    } else if p.bump < p.cap {
      BumpSteps(p, t);
    } else if remote != [] {
      CollectSteps(p, t, remote);
      var p1 := F.Regained(p, |remote|);
      PopSteps(p1, t);
      Join(In(p, t, Collecting), CollectActs(t, |remote|), In(p1, t, Popping(remote[0], Load(p, remote[0]))),
           [PopWrite(t)] + [CountUsed(t), Mark(t), FastStat(t)], F.Popped(p1));
    } else {
      DropSteps(p, t);
    }
  }

  lemma FastSteps(p: Page, t: Tid, remote: seq<nat>)
    requires Ready(p, t) && t in p.cached && |remote| < COUNTER_MOD && Chain(p.link, p.head.ptr, remote)
    requires p.debug ==>
      && (p.localHead.At? ==> p.localHead.slot !in p.bitmap) && (p.bump < p.cap ==> p.bump !in p.bitmap)
      && (remote != [] ==> remote[0] !in p.bitmap)
    ensures Runs(p, FastActs(p, t, remote), F.Drawn(p, t, remote))
  {
    One(p, FastTry(t), In(p, t, Stage(p)));
    FastBody(p, t, remote);
    Join(p, [FastTry(t)], In(p, t, Stage(p)), FastActs(p, t, remote)[1..], F.Drawn(p, t, remote));
    assert FastActs(p, t, remote) == [FastTry(t)] + FastActs(p, t, remote)[1..];
  }

  /** From every reachable state a thread that caches the page can run its allocation to the end: from the local list,
      from the virgin slots, from the collected stack of any length, or dropping the page. */
  lemma FastRuns(p: Page, t: Tid) returns (remote: seq<nat>)
    requires Reachable(p) && Ready(p, t) && t in p.cached
    ensures Chain(p.link, p.head.ptr, remote) && Runs(p, FastActs(p, t, remote), F.Drawn(p, t, remote))
  {
    ReachableInv(p);
    var v :| Inv(p, v);
    remote := v.remote;
    FirstsFree(p, v);
    ShortList(p, v);
    FastSteps(p, t, remote);
  }

  lemma FirstsFree(p: Page, v: View)
    requires Inv(p, v)
    ensures p.localHead.At? ==> p.localHead.slot !in p.live
    ensures p.bump < p.cap ==> p.bump !in p.live
    ensures v.remote != [] ==> v.remote[0] !in p.live
  {
    if v.local != [] { assert v.local[0] in v.local && SlotOk(p, v, v.local[0]); }
    if v.remote != [] { assert v.remote[0] in v.remote && SlotOk(p, v, v.remote[0]); }
    if p.bump < p.cap { assert SlotOk(p, v, p.bump); }
  }

  lemma ShortList(p: Page, v: View)
    requires Inv(p, v)
    ensures |v.remote| <= p.cap < COUNTER_MOD
  {
    ChainNoDup(p.link, p.head.ptr, v.remote);
    NoDupCount(v.remote);
    CountBelow(Elems(v.remote), p.cap);
  }

  // ---- allocation from an unowned page ----

  /** The steps of the slow path on a page it has found unowned with virgin slots. */
  function SlowActs(t: Tid, claim: bool): seq<Action> {
    [SlowTest(t), SlowRead(t)] + RestActs(t, claim)
  }

  function RestActs(t: Tid, claim: bool): seq<Action> {
    [SlowWrite(t)] + [CountUsed(t), Mark(t)] + [SlowStat(t), if claim then Claim(t) else SkipClaim(t)]
  }

  lemma FindUnowned(p: Page, t: Tid)
    requires Ready(p, t) && p.lock.None? && p.owner.None?
    ensures p.bump < p.cap ==>
      Runs(p, [SlowTest(t), SlowRead(t)], In(p.(lock := Some(t)), t, SlowBumping(p.bump)))
    ensures p.bump >= p.cap ==> Runs(p, [SlowTest(t), SlowRead(t)], p)
  {
    Moved(p.ops, t, SlowTested, SlowBumping(p.bump));
    var p1 := p.(lock := Some(t));
    Two(p, SlowTest(t), In(p1, t, SlowTested), SlowRead(t),
        if p.bump < p.cap then In(p1, t, SlowBumping(p.bump)) else p);
  }

  lemma EndSlow(p: Page, t: Tid, claim: bool)
    requires Ready(p, t) && p.lock == Some(t) && p.owner.None? && forall u | u in p.ops :: !InWindow(p.ops[u])
    ensures Runs(In(p, t, Marked(Slow)), [SlowStat(t), if claim then Claim(t) else SkipClaim(t)],
                 if claim then p.(lock := None, owner := Some(t), cached := p.cached + {t}) else p.(lock := None))
  {
    Moved(p.ops, t, Marked(Slow), Claiming);
    Moved(p.ops, t, Claiming, Claiming);
    var p1 := p.(lock := None);
    Two(In(p, t, Marked(Slow)), SlowStat(t), In(p1, t, Claiming), if claim then Claim(t) else SkipClaim(t),
        if claim then p1.(owner := Some(t), cached := p.cached + {t}) else p1);
  }

  lemma SlowRest(p: Page, t: Tid, claim: bool)
    requires Ready(p, t) && p.owner.None? && (p.debug ==> p.bump !in p.bitmap)
    requires p.lock == Some(t) && forall u | u in p.ops :: !InWindow(p.ops[u])
    ensures Runs(In(p, t, SlowBumping(p.bump)), RestActs(t, claim), F.Claimed(p.(lock := None), t, claim))
  {
    var p2 := F.Bumped(p);
    SlowBump(p, t);
    EndSlow(p2, t, claim);
    assert F.Claimed(p.(lock := None), t, claim) ==
      if claim then p2.(lock := None, owner := Some(t), cached := p.cached + {t}) else p2.(lock := None);
    Join(In(p, t, SlowBumping(p.bump)), [SlowWrite(t)] + [CountUsed(t), Mark(t)], In(p2, t, Marked(Slow)),
         [SlowStat(t), if claim then Claim(t) else SkipClaim(t)], F.Claimed(p.(lock := None), t, claim));
  }

  lemma SlowBump(p: Page, t: Tid)
    requires Ready(p, t) && (p.debug ==> p.bump !in p.bitmap)
    ensures Runs(In(p, t, SlowBumping(p.bump)), [SlowWrite(t)] + [CountUsed(t), Mark(t)],
                 In(F.Bumped(p), t, Marked(Slow)))
  {
    Moved(p.ops, t, SlowBumping(p.bump), Got(p.bump, Slow));
    var p1 := p.(bump := p.bump + 1);
    One(In(p, t, SlowBumping(p.bump)), SlowWrite(t), In(p1, t, Got(p.bump, Slow)));
    CountAndMark(p1, t, p.bump, Slow);
    Join(In(p, t, SlowBumping(p.bump)), [SlowWrite(t)], In(p1, t, Got(p.bump, Slow)),
         [CountUsed(t), Mark(t)], In(F.Bumped(p), t, Marked(Slow)));
  }

  lemma SlowSteps(p: Page, t: Tid, claim: bool)
    requires Ready(p, t) && p.lock.None? && p.owner.None? && p.bump < p.cap && (p.debug ==> p.bump !in p.bitmap)
    requires forall u | u in p.ops :: !InWindow(p.ops[u])
    ensures Runs(p, SlowActs(t, claim), F.Claimed(p, t, claim))
  {
    FindUnowned(p, t);
    var p1 := p.(lock := Some(t));
    SlowRest(p1, t, claim);
    assert p1.(lock := None) == p;
    Join(p, [SlowTest(t), SlowRead(t)], In(p1, t, SlowBumping(p.bump)), RestActs(t, claim), F.Claimed(p, t, claim));
  }

  /** From every reachable state with the arena lock free, the slow path can bump an unowned page with virgin slots,
      and claim it; and it passes over one without. */
  lemma SlowRuns(p: Page, t: Tid, claim: bool)
    requires Reachable(p) && Ready(p, t) && p.lock.None? && p.owner.None?
    ensures p.bump < p.cap ==> Runs(p, SlowActs(t, claim), F.Claimed(p, t, claim))
    ensures p.bump >= p.cap ==> Runs(p, [SlowTest(t), SlowRead(t)], p)
  {
    ReachableInv(p);
    var v :| Inv(p, v);
    FindUnowned(p, t);
    if p.bump < p.cap {
      FirstsFree(p, v);
      forall u | u in p.ops ensures !InWindow(p.ops[u]) { assert ThreadOk(p, v, u); }
      SlowSteps(p, t, claim);
    }
  }

  /** A new page gives its maker the first slot. */
  lemma FreshRuns(tagMod: nat, debug: bool, link: seq<Ptr>, exited: set<Tid>, t: Tid, claim: bool)
    requires t !in exited && link != []
    ensures var p := Fresh(tagMod, debug, link, exited, t);
            Runs(p, RestActs(t, claim), F.Claimed(p.(ops := map[], lock := None), t, claim))
  {
    var p := Fresh(tagMod, debug, link, exited, t).(ops := map[]);
    SlowRest(p, t, claim);
  }

  // ---- the rest of the steps ----

  /** Clients may write to their slots, idle threads may exit, and a compare-and-swap may fail at any time. */
  lemma OtherSteps(p: Page, t: Tid, k: nat, word: Ptr)
    requires !p.aborted
    ensures k in p.live ==> Goes(p, ClientWrite(k, word), p.(link := Store(p, k, word)))
    ensures Idle(p, t) ==> Goes(p, Exit(t), p.(exited := p.exited + {t}, cached := p.cached - {t}))
    ensures t in p.ops && p.ops[t].CollectLoaded? ==> Goes(p, CollectRetry(t), In(p, t, Collecting))
    ensures t in p.ops && p.ops[t].RemoteLinked? ==> Goes(p, RemoteRetry(t), In(p, t, RemoteFree(p.ops[t].slot)))
  {
  }

  /** A compare-and-swap whose loaded word is the head may succeed. */
  lemma CasSucceeds(p: Page, t: Tid)
    requires Reachable(p) && !p.aborted && t in p.ops
    ensures p.ops[t].RemoteLinked? ==> (Ok(p, RemoteCas(t)) <==> p.ops[t].word == p.head)
    ensures p.ops[t].CollectLoaded? ==> (Ok(p, CollectCas(t)) <==> p.ops[t].word == p.head)
  {
    NextFactsHold(p, t);
  }

  // ---- every operation can be finished ----

  /** Steps inside an operation. */
  predicate Inner(a: Action) {
    !a.ClientWrite? && !a.Exit? && !a.FastTry? && !a.SlowTest? && !a.FreeCall? && !a.FreeUnchecked?
  }

  /** The next step of a thread that is left alone. */
  function Next(p: Page, t: Tid): (a: Action)
    requires t in p.ops
    ensures Inner(a) && a.t == t
  {
    match p.ops[t]
    case Popping(_, _) => PopWrite(t)
    case Bumping(_) => BumpWrite(t)
    case SlowTested => SlowRead(t)
    case SlowBumping(_) => SlowWrite(t)
    case Got(_, _) => CountUsed(t)
    case Counted(_, _) => Mark(t)
    case Marked(path) => if path.Fast? then FastStat(t) else SlowStat(t)
    case Claiming => SkipClaim(t)
    case Collecting => CollectLoad(t)
    case CollectLoaded(w) => if w == p.head then CollectCas(t) else CollectRetry(t)
    case Walking(_, cur, _) => if Load(p, cur).At? then Walk(t) else WalkEnd(t)
    case Splicing(_, _, _) => Splice(t)
    case Subtracting(_) => Subtract(t)
    case Dropping => Drop(t)
    case Checking(k) => if k in p.bitmap then Check(t) else Abort(t)
    case Freeing(_) => OwnerLoad(t)
    case LocalFree(_) => LocalLink(t)
    case LocalLinked(_) => LocalPush(t)
    case LocalPushed => UsedSub(t)
    case RemoteFree(_) => RemoteLoad(t)
    case RemoteLoaded(_, _) => RemoteLink(t)
    case RemoteLinked(_, w) => if w == p.head then RemoteCas(t) else RemoteRetry(t)
    case RemotePushed => RemoteCount(t)
    case RemoteCounted => UsedSub(t)
    case FreeStat(_) => StatFree(t)
  }

  /** How many steps are left at most. */
  function Left(p: Page, t: Tid): nat {
    if t !in p.ops || p.aborted then 0
    else
      match p.ops[t]
      case Claiming => 1
      case Dropping => 1
      case Marked(_) => 2
      case Counted(_, _) => 3
      case Got(_, _) => 4
      case Popping(_, _) => 5
      case Bumping(_) => 5
      case SlowBumping(_) => 5
      case SlowTested => 6
      case Subtracting(_) => 6
      case Splicing(_, _, _) => 7
      case Walking(_, _, n) => if n < p.cap then 8 + p.cap - n else 8
      case CollectLoaded(w) => if w == p.head then 9 + p.cap else 11 + p.cap
      case Collecting => 10 + p.cap
      case FreeStat(_) => 1
      case LocalPushed => 2
      case RemoteCounted => 2
      case RemotePushed => 3
      case RemoteLinked(_, w) => if w == p.head then 4 else 7
      case RemoteLoaded(_, w) => if w == p.head then 5 else 8
      case RemoteFree(_) => 6
      case LocalLinked(_) => 3
      case LocalFree(_) => 4
      case Freeing(_) => 9
      case Checking(_) => 10
  }

  /** What the invariant says about a thread's next step. */
  predicate NextFacts(p: Page, t: Tid) {
    && t in p.ops && !p.aborted
    && var pc := p.ops[t];
    && (pc.Counted? && p.debug ==> pc.slot !in p.bitmap)
    && (pc.Checking? ==> p.debug)
    && (pc.CollectLoaded? ==> pc.word.ptr.At?)
    && (pc.Walking? ==> pc.count < p.cap < COUNTER_MOD)
    && (pc.Subtracting? ==> p.localHead.At?)
    && (pc.Walking? && Load(p, pc.cur).At? ==> pc.count + 1 < p.cap)
  }

  lemma NextFactsHold(p: Page, t: Tid)
    requires Reachable(p) && !p.aborted && t in p.ops
    ensures NextFacts(p, t)
  {
    ReachableInv(p);
    var v :| Inv(p, v);
    assert ThreadOk(p, v, t);
    var pc := p.ops[t];
    if pc.Counted? { assert SlotOk(p, v, pc.slot); }
    if pc.Walking? {
      CollShort(p, v);
      assert Fetch(p.link, v.coll[pc.count]) == After(v.coll, pc.count);
    }
  }

  predicate OnAlloc(pc: PC) { AllocPc(pc) || SlowPc(pc) || pc.Got? || pc.Counted? || pc.Marked? }

  lemma AllocNext(p: Page, t: Tid)
    requires NextFacts(p, t) && OnAlloc(p.ops[t]) && !p.ops[t].Walking?
    ensures Ok(p, Next(p, t)) && Left(Apply(p, Next(p, t)), t) < Left(p, t)
  {
  }

  lemma WalkNext(p: Page, t: Tid)
    requires NextFacts(p, t) && p.ops[t].Walking?
    ensures Ok(p, Next(p, t)) && Left(Apply(p, Next(p, t)), t) < Left(p, t)
  {
  }

  predicate OnRemote(pc: PC) {
    pc.RemoteFree? || pc.RemoteLoaded? || pc.RemoteLinked? || pc.RemotePushed? || pc.RemoteCounted?
  }

  lemma RemoteNext(p: Page, t: Tid)
    requires NextFacts(p, t) && OnRemote(p.ops[t])
    ensures Ok(p, Next(p, t)) && Left(Apply(p, Next(p, t)), t) < Left(p, t)
  {
  }

  lemma FreeNext(p: Page, t: Tid)
    requires NextFacts(p, t) && !OnAlloc(p.ops[t]) && !OnRemote(p.ops[t])
    ensures Ok(p, Next(p, t)) && Left(Apply(p, Next(p, t)), t) < Left(p, t)
  {
  }

  /** In every reachable state every thread inside an operation has a step that brings it nearer to the end. */
  lemma NextBrings(p: Page, t: Tid)
    requires Reachable(p) && !p.aborted && t in p.ops
    ensures Ok(p, Next(p, t)) && Left(Apply(p, Next(p, t)), t) < Left(p, t)
  {
    NextFactsHold(p, t);
    if p.ops[t].Walking? { WalkNext(p, t); }
    else if OnAlloc(p.ops[t]) { AllocNext(p, t); }
    else if OnRemote(p.ops[t]) { RemoteNext(p, t); }
    else { FreeNext(p, t); }
  }

  /** Obstruction freedom: left alone, a thread finishes its operation, or is aborted for freeing a slot that is not
      live, in at most `cap + 11` steps of its own, from every reachable state. */
  lemma {:induction false} Finishes(p: Page, t: Tid) returns (run: seq<Action>, q: Page)
    requires Reachable(p)
    ensures |run| <= Left(p, t) <= p.cap + 11 && Runs(p, run, q)
    ensures forall a | a in run :: Inner(a) && a.t == t
    ensures t !in q.ops || q.aborted
    decreases Left(p, t)
  {
    if t !in p.ops || p.aborted {
      run, q := [], p;
    } else {
      var a, p' := TakeNext(p, t);
      var rest;
      rest, q := Finishes(p', t);
      One(p, a, p');
      Join(p, [a], p', rest, q);
      run := [a] + rest;
    }
  }

  lemma TakeNext(p: Page, t: Tid) returns (a: Action, p': Page)
    requires Reachable(p) && !p.aborted && t in p.ops
    ensures Goes(p, a, p') && Reachable(p') && Left(p', t) < Left(p, t) && Inner(a) && a.t == t
  {
    NextBrings(p, t);
    a := Next(p, t);
    ReachableStep(p, a);
    p' := Apply(p, a);
  }
}
