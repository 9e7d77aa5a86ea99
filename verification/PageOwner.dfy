/** Ownership of a page in every run, also in those that break hypothesis H. */
module PageOwner {
  import opened Basics
  import opened PageProtocol
  import opened PageInvariant
  import opened PageSteps
  import opened PageEffect
  import opened PageRuns

  /** What a thread's position says about owner, caches and lock. */
  predicate OwnAt(p: Page, t: Tid) {
    && t in p.ops && t !in p.exited
    && (OwnerPc(p.ops[t]) ==> p.owner == Some(t))
    && (SlowPc(p.ops[t]) ==> p.owner != Some(t))
    && (AllocPc(p.ops[t]) ==> t in p.cached)
    && (Locked(p.ops[t]) <==> p.lock == Some(t))
  }

  /** A thread outside any operation does not hold the lock. */
  predicate OwnAfter(p: Page, t: Tid) {
    if t in p.ops then OwnAt(p, t) else p.lock != Some(t)
  }

  ghost predicate OwnInv(p: Page) {
    && (forall t {:trigger OwnAt(p, t)} | t in p.ops :: OwnAt(p, t))
    && (forall t | t in p.cached :: p.owner == Some(t) && t !in p.exited)
    && (p.lock.Some? ==> p.lock.value in p.ops)
  }

  /** A step from an initial page on, with or without H. */
  ghost predicate IsPlay(pages: seq<Page>, acts: seq<Action>) {
    && |pages| == |acts| + 1
    && Initial(pages[0])
    && forall i {:trigger acts[i]} | 0 <= i < |acts| ::
         Enabled(pages[i], acts[i]) && pages[i + 1] == Apply(pages[i], acts[i])
  }

  /** What the step's thread relies on. */
  predicate Fine(p: Page, t: Tid) {
    OwnAfter(p, t) && (t in p.cached ==> p.owner == Some(t))
  }

  lemma FastOwn(p: Page, a: Action)
    requires Enabled(p, a) && (a.FastTry? || a.PopWrite? || a.BumpWrite? || a.FastStat?) && Fine(p, a.t)
    ensures OwnAfter(Apply(p, a), a.t)
  {
  }

  lemma SlowOwn(p: Page, a: Action)
    requires a.SlowStat? || a.SlowTest? || a.SlowRead? || a.SlowWrite? || a.SkipClaim? || a.Claim?
    requires Enabled(p, a) && Fine(p, a.t)
    ensures OwnAfter(Apply(p, a), a.t)
  {
  }

  lemma MarkOwn(p: Page, a: Action)
    requires Enabled(p, a) && (a.CountUsed? || a.Mark?) && Fine(p, a.t)
    ensures OwnAfter(Apply(p, a), a.t)
  {
  }

  lemma CountOwn(p: Page, a: Action)
    requires Enabled(p, a) && (a.UsedSub? || a.RemoteCount?) && Fine(p, a.t)
    ensures OwnAfter(Apply(p, a), a.t)
  {
  }

  lemma CollectOwn(p: Page, a: Action)
    requires Enabled(p, a) && CollectAction(a) && Fine(p, a.t)
    ensures OwnAfter(Apply(p, a), a.t)
  {
  }

  lemma FreeOwn(p: Page, a: Action)
    requires Enabled(p, a) && (a.FreeCall? || a.FreeUnchecked? || a.Check?) && Fine(p, a.t)
    ensures OwnAfter(Apply(p, a), a.t)
  {
  }

  lemma EndOwn(p: Page, a: Action)
    requires Enabled(p, a) && (a.Abort? || a.OwnerLoad? || a.StatFree? || a.Exit?) && Fine(p, a.t)
    ensures OwnAfter(Apply(p, a), a.t)
  {
  }

  lemma LinkOwn(p: Page, a: Action)
    requires Enabled(p, a) && (a.LocalLink? || a.LocalPush?) && Fine(p, a.t)
    ensures OwnAfter(Apply(p, a), a.t)
  {
  }

  lemma RemoteOwn(p: Page, a: Action)
    requires Enabled(p, a) && (a.RemoteLoad? || a.RemoteLink?) && Fine(p, a.t)
    ensures OwnAfter(Apply(p, a), a.t)
  {
  }

  lemma CasOwn(p: Page, a: Action)
    requires Enabled(p, a) && (a.RemoteRetry? || a.RemoteCas?) && Fine(p, a.t)
    ensures OwnAfter(Apply(p, a), a.t)
  {
  }

  predicate Takes(a: Action) { AllocAction(a) || CollectAction(a) }

  lemma TakerOwn(p: Page, a: Action)
    requires Enabled(p, a) && Takes(a) && Fine(p, a.t)
    ensures OwnAfter(Apply(p, a), a.t)
  {
    if CollectAction(a) { CollectOwn(p, a); }
    else if a.FastTry? || a.PopWrite? || a.BumpWrite? || a.FastStat? { FastOwn(p, a); }
    else if a.CountUsed? || a.Mark? { MarkOwn(p, a); }
    else { SlowOwn(p, a); }
  }

  lemma ReturnerOwn(p: Page, a: Action)
    requires Enabled(p, a) && !Takes(a) && !a.ClientWrite? && Fine(p, a.t)
    ensures OwnAfter(Apply(p, a), a.t)
  {
    if a.FreeCall? || a.FreeUnchecked? || a.Check? { FreeOwn(p, a); }
    else if a.LocalLink? || a.LocalPush? { LinkOwn(p, a); }
    else if a.RemoteLoad? || a.RemoteLink? { RemoteOwn(p, a); }
    else if a.RemoteRetry? || a.RemoteCas? { CasOwn(p, a); }
    else if a.UsedSub? || a.RemoteCount? { CountOwn(p, a); }
    else { EndOwn(p, a); }
  }

  lemma ActorOwn(p: Page, a: Action)
    requires OwnInv(p) && Enabled(p, a) && !a.ClientWrite?
    ensures OwnAfter(Apply(p, a), a.t)
  {
    assert Fine(p, a.t) by { if a.t in p.ops { assert OwnAt(p, a.t); } }
    if Takes(a) { TakerOwn(p, a); } else { ReturnerOwn(p, a); }
  }

  /** The step's own preconditions on owner, caches and lock. */
  lemma StepGuards(p: Page, a: Action)
    requires OwnInv(p) && Enabled(p, a) && !a.ClientWrite?
    ensures a.Claim? ==> p.owner != Some(a.t) && a.t !in p.exited && p.lock != Some(a.t)
    ensures a.SlowTest? ==> p.lock == None
    ensures a.SlowStat? || a.SlowRead? ==> p.lock == Some(a.t)
    ensures a.Exit? ==> a.t !in p.ops
  {
    if a.t in p.ops { assert OwnAt(p, a.t); }
  }

  lemma OthersOwn(p: Page, a: Action, q: Page, u: Tid)
    requires OwnInv(p) && Enabled(p, a) && ThreadEffect(p, a, q) && u in q.ops && (a.ClientWrite? || u != a.t)
    ensures OwnAt(q, u)
  {
    if !a.ClientWrite? {
      assert u in q.ops - {a.t} && (q.ops - {a.t})[u] == q.ops[u];
      assert u in p.ops - {a.t};
      StepGuards(p, a);
    }
    assert OwnAt(p, u);
  }

  /** Every step keeps ownership in order. */
  lemma OwnStep(p: Page, a: Action)
    requires OwnInv(p) && Enabled(p, a)
    ensures OwnInv(Apply(p, a))
  {
    var q := Apply(p, a);
    StepEffect(p, a);
    if !a.ClientWrite? {
      StepGuards(p, a);
      ActorOwn(p, a);
      if q.lock.Some? && q.lock != Some(a.t) { assert q.lock.value in p.ops - {a.t}; }
    }
    forall u | u in q.ops ensures OwnAt(q, u) {
      if a.ClientWrite? || u != a.t { OthersOwn(p, a, q, u); }
    }
  }

  lemma InitialOwn(p: Page)
    requires Initial(p)
    ensures OwnInv(p)
  {
    forall t | t in p.ops ensures OwnAt(p, t) {}
  }

  lemma {:induction false} EveryPlay(pages: seq<Page>, acts: seq<Action>, n: nat)
    requires IsPlay(pages, acts) && n <= |acts|
    ensures OwnInv(pages[n])
    decreases n
  {
    if n == 0 {
      InitialOwn(pages[0]);
    } else {
      EveryPlay(pages, acts, n - 1);
      var a := acts[n - 1];
      OwnStep(pages[n - 1], a);
    }
  }

  /** In every run, with or without H: local_free and the collected list have a single accessor, the owner; a
      cached page belongs to the thread that caches it; and the "already own it" branch of the claim is never
      taken. */
  lemma SingleAccessor(pages: seq<Page>, acts: seq<Action>, n: nat, t: Tid)
    requires IsPlay(pages, acts) && n <= |acts|
    ensures t in pages[n].ops && OwnerPc(pages[n].ops[t]) ==> pages[n].owner == Some(t)
    ensures t in pages[n].cached ==> pages[n].owner == Some(t)
    ensures t in pages[n].ops && pages[n].ops[t].Claiming? ==> pages[n].owner != Some(t)
  {
    EveryPlay(pages, acts, n);
    if t in pages[n].ops { assert OwnAt(pages[n], t); }
  }

  /** In every run, with or without H, an owner once set never changes. */
  lemma {:induction false} OwnerForever(pages: seq<Page>, acts: seq<Action>, m: nat, n: nat)
    requires IsPlay(pages, acts) && m <= n <= |acts| && pages[m].owner.Some?
    ensures pages[n].owner == pages[m].owner
    decreases n
  {
    if m < n {
      OwnerForever(pages, acts, m, n - 1);
      var a := acts[n - 1];
      StepEffect(pages[n - 1], a);
    }
  }
}
