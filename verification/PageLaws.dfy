/** Consequences of the page invariant: fullness, double-free detection, and why hypothesis H is needed. */
module PageLaws {
  import opened Basics
  import opened PageProtocol
  import opened PageInvariant
  import opened PageSteps
  import opened PageEffect
  import opened PageRuns

  // ---- fullness is exact and final ----

  /** The collect that finds the stack empty, which makes the owner drop the page, finds every slot
      live or in the hands of a thread in the middle of an operation. */
  lemma FullAtDrop(p: Page, t: Tid, k: nat)
    requires Reachable(p) && Enabled(p, CollectLoad(t)) && Apply(p, CollectLoad(t)).ops[t].Dropping? && k < p.cap
    ensures k in p.live || exists u :: HeldBy(p, u) == Some(k)
  {
    ReachableInv(p);
    var v :| Inv(p, v);
    assert ThreadOk(p, v, t);
    assert SlotOk(p, v, k);
    assert v.remote == [] && v.coll == [];
    if v.place[k].Held? { assert HeldBy(p, v.place[k].t) == Some(k); }
  }

  /** The page has an owner, which no longer caches it and is not allocating from it. */
  predicate Retired(p: Page) {
    p.owner.Some? && p.cached == {} && (OwnerOp(p).Some? ==> !AllocPc(OwnerOp(p).value))
  }

  /** A step that takes a slot for an allocation, or prepares to. */
  predicate Allocates(a: Action) {
    a.FastTry? || a.PopWrite? || a.BumpWrite? || a.SlowTest? || a.SlowWrite? || a.CollectCas? || a.Splice?
  }

  /** What a thread's position and the caches say about retirement. */
  ghost predicate OwnFacts(p: Page, t: Tid) {
    && Caches(p)
    && (t in p.ops ==>
          && (OwnerPc(p.ops[t]) ==> p.owner == Some(t))
          && (InWindow(p.ops[t]) ==> p.owner == None || p.bump == p.cap)
          && (p.ops[t].SlowBumping? ==> p.bump < p.cap)
          && (p.ops[t].Claiming? ==> p.owner != Some(t)))
  }

  lemma ReachableFacts(p: Page, t: Tid)
    requires Reachable(p)
    ensures OwnFacts(p, t)
  {
    ReachableInv(p);
    var v :| Inv(p, v);
    if t in p.ops { assert ThreadOk(p, v, t); }
  }

  /** Dropping a page, or the exit of its owner, retires it. */
  lemma DropRetires(p: Page, t: Tid)
    requires Reachable(p)
    ensures t in p.ops && p.ops[t].Dropping? ==> Retired(DoDrop(p, t))
    ensures Idle(p, t) && p.owner == Some(t) ==> Retired(DoExit(p, t))
  {
    ReachableFacts(p, t);
  }

  lemma RetiredAllocs(p: Page, a: Action)
    requires Retired(p) && Ok(p, a) && (AllocAction(a) || CollectAction(a)) && OwnFacts(p, a.t)
    ensures Retired(Apply(p, a)) && !Allocates(a)
  {
  }

  lemma RetiredFrees(p: Page, a: Action)
    requires Retired(p) && Ok(p, a) && FreeAction(a) && OwnFacts(p, a.t)
    ensures Retired(Apply(p, a)) && !Allocates(a)
  {
  }

  lemma RetiredLinks(p: Page, a: Action)
    requires Retired(p) && Ok(p, a) && LinkAction(a) && OwnFacts(p, a.t)
    ensures Retired(Apply(p, a)) && !Allocates(a)
  {
  }

  lemma RetiredPushes(p: Page, a: Action)
    requires Retired(p) && Ok(p, a) && PushAction(a) && OwnFacts(p, a.t)
    ensures Retired(Apply(p, a)) && !Allocates(a)
  {
  }

  lemma RetiredStep(p: Page, a: Action)
    requires Reachable(p) && Retired(p) && Ok(p, a)
    ensures Retired(Apply(p, a)) && !Allocates(a)
  {
    if !a.ClientWrite? {
      ReachableFacts(p, a.t);
      if AllocAction(a) || CollectAction(a) { RetiredAllocs(p, a); }
      else if FreeAction(a) { RetiredFrees(p, a); }
      else if LinkAction(a) { RetiredLinks(p, a); }
      else if PushAction(a) { RetiredPushes(p, a); }
    }
  }

  /** Once retired, a page is never allocated from again: no later step takes a slot from it. */
  lemma {:induction false} RetiredForever(p: Page, run: seq<Action>)
    requires Reachable(p) && Retired(p) && Exec(p, run).Some?
    ensures Reachable(Exec(p, run).value) && Retired(Exec(p, run).value)
    ensures forall i | 0 <= i < |run| :: !Allocates(run[i])
    decreases |run|
  {
    if run != [] {
      var prefix := run[..|run| - 1];
      RetiredForever(p, prefix);
      var q := Exec(p, prefix).value;
      RetiredStep(q, run[|run| - 1]);
      ReachableStep(q, run[|run| - 1]);
      assert run == prefix + [run[|run| - 1]];
    }
  }

  /** An owned page with virgin slots left is still cached, unless its owner exited. */
  lemma VirginStaysCached(p: Page, t: Tid)
    requires Reachable(p) && p.owner == Some(t) && p.bump < p.cap && t !in p.exited
    ensures p.cached == {t}
  {
    ReachableInv(p);
    var v :| Inv(p, v);
  }

  // ---- double frees ----

  /** In debug builds the bitmap is the set of live slots; marking an allocation never aborts; a free
      passes its check exactly when the slot is live, and otherwise aborts with nothing else changed. */
  lemma BitmapExact(p: Page, t: Tid)
    requires Reachable(p) && p.debug && !p.aborted
    ensures p.bitmap == p.live
    ensures t in p.ops && p.ops[t].Counted? ==> Enabled(p, Mark(t)) && !Enabled(p, Abort(t))
    ensures t in p.ops && p.ops[t].Checking? ==>
      if p.ops[t].slot in p.live then Enabled(p, Check(t)) && !Enabled(p, Abort(t))
      else !Enabled(p, Check(t)) && Enabled(p, Abort(t)) && Apply(p, Abort(t)) == p.(aborted := true)
  {
    ReachableInv(p);
    var v :| Inv(p, v);
    if t in p.ops && p.ops[t].Counted? {
      assert ThreadOk(p, v, t);
      assert SlotOk(p, v, p.ops[t].slot);
    }
  }

  /** Of any number of racing frees of a slot with no re-allocation between them at most one passes,
      and exactly one if the slot was live and ends up not live. */
  lemma RacingFrees(p: Page, run: seq<Action>, k: nat)
    requires Reachable(p) && Exec(p, run).Some? && Given(p, run, k) == 0
    ensures Taken(p, run, k) == Bit(k in p.live) - Bit(k in Exec(p, run).value.live)
    ensures Taken(p, run, k) <= 1
  {
    HandoutBalance(p, run, k);
  }

  /** What a well-behaved client guarantees of a free: the slot is live and nobody else is freeing it. */
  predicate LegalCall(p: Page, a: Action) {
    a.FreeCall? ==> a.slot in p.live && forall t | t in p.ops :: p.ops[t] != Checking(a.slot)
  }

  predicate LegalRun(p: Page, run: seq<Action>) {
    run == [] ||
    var q := Exec(p, run[..|run| - 1]);
    LegalRun(p, run[..|run| - 1]) && (q.Some? ==> LegalCall(q.value, run[|run| - 1]))
  }

  /** Frees in progress are of live slots, each by one thread. */
  ghost predicate LegalPending(p: Page) {
    && (forall t | t in p.ops && p.ops[t].Checking? :: p.ops[t].slot in p.live)
    && (forall t, u | t in p.ops && u in p.ops && p.ops[t].Checking? && p.ops[t] == p.ops[u] :: t == u)
  }

  /** Where pending frees come from. */
  lemma PendingOrigin(p: Page, a: Action, u: Tid, k: nat)
    requires Ok(p, a)
    ensures u in Apply(p, a).ops && Apply(p, a).ops[u] == Checking(k) ==>
      (u in p.ops && p.ops[u] == Checking(k) && (a == Check(u) ==> Apply(p, a).aborted)) || a == FreeCall(u, k)
  {
    StepEffect(p, a);
    if !a.ClientWrite? && a.t == u {
      if FreeAction(a) { PendingFree(p, a, k); } else { PendingElse(p, a, k); }
    } else if u in Apply(p, a).ops && !a.ClientWrite? {
      assert u in Apply(p, a).ops - {a.t} && u in p.ops - {a.t};
    }
  }

  lemma PendingFree(p: Page, a: Action, k: nat)
    requires Ok(p, a) && FreeAction(a)
    ensures a.t in Apply(p, a).ops && Apply(p, a).ops[a.t] == Checking(k) ==>
      (a.t in p.ops && p.ops[a.t] == Checking(k) && !a.Check?) || a == FreeCall(a.t, k)
  {
  }

  /** The other steps leave their thread elsewhere. */
  lemma PendingElse(p: Page, a: Action, k: nat)
    requires Ok(p, a) && !FreeAction(a) && !a.ClientWrite?
    ensures a.t in Apply(p, a).ops ==> Apply(p, a).ops[a.t] != Checking(k)
  {
  }

  lemma LegalKeeps(p: Page, a: Action)
    requires LegalPending(p) && Ok(p, a) && LegalCall(p, a)
    requires a.FreeUnchecked? ==> forall t | t in p.ops :: !p.ops[t].Checking?
    ensures LegalPending(Apply(p, a))
  {
    var q := Apply(p, a);
    forall t | t in q.ops && q.ops[t].Checking? ensures q.ops[t].slot in q.live {
      PendingOrigin(p, a, t, q.ops[t].slot);
      StepEffect(p, a);
    }
    forall t, u | t in q.ops && u in q.ops && q.ops[t].Checking? && q.ops[t] == q.ops[u] ensures t == u {
      PendingOrigin(p, a, t, q.ops[t].slot);
      PendingOrigin(p, a, u, q.ops[u].slot);
    }
  }

  lemma LegalStep(p: Page, a: Action)
    requires Reachable(p) && LegalPending(p) && Ok(p, a) && LegalCall(p, a)
    ensures LegalPending(Apply(p, a)) && !a.Abort?
  {
    ReachableInv(p);
    var v :| Inv(p, v);
    if a.Abort? { BitmapExactFor(p, v, a.t); }
    forall t | t in p.ops && p.ops[t].Checking? ensures p.debug { assert ThreadOk(p, v, t); }
    LegalKeeps(p, a);
  }

  lemma BitmapExactFor(p: Page, v: View, t: Tid)
    requires Inv(p, v) && t in p.ops
    ensures p.debug && p.ops[t].Counted? ==> p.ops[t].slot !in p.bitmap
    ensures p.ops[t].Checking? ==> p.debug && p.bitmap == p.live
  {
    assert ThreadOk(p, v, t);
    if p.ops[t].Counted? { assert SlotOk(p, v, p.ops[t].slot); }
  }

  /** Legal clients never trigger an abort. */
  lemma {:induction false} LegalNeverAborts(p: Page, run: seq<Action>)
    requires Reachable(p) && LegalPending(p) && Exec(p, run).Some? && LegalRun(p, run)
    ensures Reachable(Exec(p, run).value) && LegalPending(Exec(p, run).value) && forall i | 0 <= i < |run| ::
      !run[i].Abort?
    decreases |run|
  {
    if run != [] {
      var prefix := run[..|run| - 1];
      LegalNeverAborts(p, prefix);
      LegalStep(Exec(p, prefix).value, run[|run| - 1]);
      ReachableStep(Exec(p, prefix).value, run[|run| - 1]);
      assert run == prefix + [run[|run| - 1]];
    }
  }

  // ---- without hypothesis H ----

  /** A run in which nothing keeps claims out of the window between owner test and bump. */
  function Play(p: Page, run: seq<Action>): Option<Page>
    decreases |run|
  {
    if run == [] then Some(p)
    else if Enabled(p, run[0]) then Play(Apply(p, run[0]), run[1..]) else None
  }

  /** Thread `t` claims the page inside the window of thread `u`, and both bump. */
  function RaceRun(p: Page, t: Tid, u: Tid): seq<Action> {
    [Claim(t), FastTry(t)] + RaceTail(p, t, u)
  }

  function RaceTail(p: Page, t: Tid, u: Tid): seq<Action> {
    (if u in p.ops && p.ops[u].SlowTested? then [SlowRead(u)] else []) + [BumpWrite(t), SlowWrite(u)]
  }

  /** Whenever H is about to fail, it matters: from every reachable state in which a thread can claim
      a page with virgin slots while another is inside its window, there is a run after which both
      threads hold the same slot. */
  lemma ClaimInWindowDoubles(p: Page, t: Tid, u: Tid)
    requires Reachable(p) && !p.aborted && t != u && t in p.ops && u in p.ops && p.owner.None?
    requires p.ops[t].Claiming? && InWindow(p.ops[u]) && p.bump < p.cap
    ensures var r := Play(p, RaceRun(p, t, u));
            r.Some? && HeldBy(r.value, t) == Some(p.bump) && HeldBy(r.value, u) == Some(p.bump)
  {
    ReachableRace(p, t, u);
    var rest := RaceTail(p, t, u);
    assert RaceRun(p, t, u) == [Claim(t), FastTry(t)] + rest;
    RaceBegin(p, t, rest);
    RaceMiddle(p, DoFastTry(DoClaim(p, t), t), t, u);
  }

  lemma RaceMiddle(p: Page, p2: Page, t: Tid, u: Tid)
    requires !p2.aborted && t != u && t in p2.ops && u in p2.ops && u in p.ops && p2.ops[u] == p.ops[u]
    requires p2.bump == p.bump < p2.cap && p2.ops[t] == Bumping(p.bump)
    requires p.ops[u].SlowTested? || p.ops[u] == SlowBumping(p.bump)
    ensures var r := Play(p2, RaceTail(p, t, u));
            r.Some? && HeldBy(r.value, t) == Some(p.bump) && HeldBy(r.value, u) == Some(p.bump)
  {
    var rest := RaceTail(p, t, u);
    if p.ops[u].SlowTested? {
      assert rest == [SlowRead(u)] + rest[1..] && rest[1..] == [BumpWrite(t), SlowWrite(u)];
      assert Play(p2, rest) == Play(DoSlowRead(p2, u), rest[1..]);
      RaceEnd(DoSlowRead(p2, u), t, u, p.bump);
    } else {
      assert rest == [BumpWrite(t), SlowWrite(u)];
      RaceEnd(p2, t, u, p.bump);
    }
  }

  lemma RaceBegin(p: Page, t: Tid, rest: seq<Action>)
    requires !p.aborted && t in p.ops && p.ops[t].Claiming? && p.owner.None?
    requires t !in p.exited && p.localHead.Null? && p.bump < p.cap
    ensures var p2 := DoFastTry(DoClaim(p, t), t);
            Play(p, [Claim(t), FastTry(t)] + rest) == Play(p2, rest)
  {
    var run := [Claim(t), FastTry(t)] + rest;
    assert run[1..] == [FastTry(t)] + rest && run[1..][1..] == rest;
    assert Play(p, run) == Play(DoClaim(p, t), run[1..]);
    assert Play(DoClaim(p, t), run[1..]) == Play(DoFastTry(DoClaim(p, t), t), rest);
  }

  lemma ReachableRace(p: Page, t: Tid, u: Tid)
    requires Reachable(p) && t in p.ops && u in p.ops && p.owner.None?
    ensures p.localHead.Null? && t !in p.exited && (p.ops[u].SlowBumping? ==> p.ops[u].slot == p.bump)
  {
    ReachableInv(p);
    var v :| Inv(p, v);
    assert ThreadOk(p, v, t) && ThreadOk(p, v, u);
  }

  lemma RaceEnd(p: Page, t: Tid, u: Tid, k: nat)
    requires !p.aborted && t != u && t in p.ops && u in p.ops && p.ops[t] == Bumping(k) && p.ops[u] == SlowBumping(k)
    ensures var r := Play(p, [BumpWrite(t), SlowWrite(u)]);
            r.Some? && HeldBy(r.value, t) == Some(k) && HeldBy(r.value, u) == Some(k)
  {
    var run := [BumpWrite(t), SlowWrite(u)];
    var p1 := DoBumpWrite(p, t);
    var p2 := DoSlowWrite(p1, u);
    assert run[1..] == [SlowWrite(u)] && run[1..][1..] == [];
    assert Play(p2, []) == Some(p2);
    assert Play(p1, run[1..]) == Some(p2);
  }

  /** A slow-path allocation of a release build runs to the point where it is about to claim. */
  lemma SlowPathRuns(p: Page, t: Tid) returns (q: Page)
    requires Reachable(p) && !p.aborted && !p.debug && t in p.ops && p.ops[t].SlowBumping?
    ensures Reachable(q) && !q.aborted && q.owner == p.owner && q.bump == p.ops[t].slot + 1
    ensures q.ops == p.ops[t := Claiming] && q.lock == None && q.exited == p.exited && q.cap == p.cap
  {
    var p1 := DoSlowWrite(p, t);
    ReachableStep(p, SlowWrite(t));
    var p2 := DoCountUsed(p1, t);
    ReachableStep(p1, CountUsed(t));
    var p3 := DoMark(p2, t);
    ReachableStep(p2, Mark(t));
    q := DoSlowStat(p3, t);
    ReachableStep(p3, SlowStat(t));
  }

  /** Such states are reachable: two threads on a fresh two-slot page. */
  lemma WindowReachable() returns (p: Page)
    ensures Reachable(p) && !p.aborted && p.owner.None? && p.bump < p.cap
    ensures 1 in p.ops && 2 in p.ops && p.ops[1].Claiming? && InWindow(p.ops[2])
  {
    var p0 := Fresh(65536, false, [Null, Null], {}, 1);
    assert IsRun([p0], []);
    var p1 := SlowPathRuns(p0, 1);
    ReachableStep(p1, SlowTest(2));
    p := DoSlowTest(p1, 2);
  }
}
