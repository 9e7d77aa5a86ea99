/** What holds in every run of any number of threads on a page. */
module PageRuns {
  import opened Basics
  import opened PageProtocol
  import opened PageInvariant
  import opened PageSteps
  import opened PageEffect

  /** A page as page_init leaves it: at least one slot, at most 4096, created by a running thread. */
  predicate Initial(p: Page) {
    && p.tagMod > 0
    && 0 < |p.link| <= 4096
    && exists t | t in p.ops :: t !in p.exited && p == Fresh(p.tagMod, p.debug, p.link, p.exited, t)
  }

  /** A run from an initial page that respects hypothesis H. */
  ghost predicate IsRun(pages: seq<Page>, acts: seq<Action>) {
    && |pages| == |acts| + 1
    && Initial(pages[0])
    && forall i {:trigger acts[i]} | 0 <= i < |acts| ::
        Ok(pages[i], acts[i]) && pages[i + 1] == Apply(pages[i], acts[i])
  }

  /** A state some run leads to. */
  ghost predicate Reachable(p: Page) {
    exists pages, acts :: IsRun(pages, acts) && pages[|acts|] == p
  }

  ghost predicate PageInv(p: Page) {
    exists v :: Inv(p, v)
  }

  lemma InitialInv(p: Page)
    requires Initial(p)
    ensures PageInv(p)
  {
    var v := View([], [], [], seq(|p.link|, _ => Virgin));
    assert UsedPending(p.ops) == {} && Uncounted(p.ops) == {};
    forall k | 0 <= k < p.cap ensures SlotOk(p, v, k) {}
    forall t | t in p.ops ensures ThreadOk(p, v, t) {}
    assert Inv(p, v);
  }

  /** Every state of every run satisfies the invariant. */
  lemma {:induction false} EveryRun(pages: seq<Page>, acts: seq<Action>, n: nat)
    requires IsRun(pages, acts) && n <= |acts|
    ensures PageInv(pages[n])
    decreases n
  {
    if n == 0 {
      InitialInv(pages[0]);
    } else {
      EveryRun(pages, acts, n - 1);
      var v :| Inv(pages[n - 1], v);
      var w := StepKeeps(pages[n - 1], v, acts[n - 1]);
    }
  }

  lemma ReachableInv(p: Page)
    requires Reachable(p)
    ensures PageInv(p)
  {
    var pages, acts :| IsRun(pages, acts) && pages[|acts|] == p;
    EveryRun(pages, acts, |acts|);
  }

  lemma ReachableStep(p: Page, a: Action)
    requires Reachable(p) && Ok(p, a)
    ensures Reachable(Apply(p, a))
  {
    var pages, acts :| IsRun(pages, acts) && pages[|acts|] == p;
    var pages', acts' := pages + [Apply(p, a)], acts + [a];
    forall i | 0 <= i < |acts'| ensures Ok(pages'[i], acts'[i]) && pages'[i + 1] == Apply(pages'[i], acts'[i]) {
      if i < |acts| { assert acts'[i] == acts[i]; }
    }
    assert IsRun(pages', acts');
  }

  // ---- every slot is in exactly one place ----

  /** Slot `k` is on the list that starts at `head`. */
  ghost predicate OnList(link: seq<Ptr>, head: Ptr, k: nat) {
    exists s :: Chain(link, head, s) && k in s
  }

  /** Where the list starts that the owner has taken off the remote stack and not yet spliced; null when there
      is none. */
  function Gathered(p: Page): Ptr {
    match OwnerOp(p)
    case Some(Walking(list, _, _)) => At(list)
    case Some(Splicing(list, _, _)) => At(list)
    case _ => Null
  }

  /** Slot `k` is at the place `x`, read off the page itself. */
  ghost predicate IsAt(p: Page, k: nat, x: Place) {
    match x
    case Virgin => p.bump <= k < p.cap
    case Live => k in p.live
    case Local => OnList(p.link, p.localHead, k)
    case Remote => OnList(p.link, p.head.ptr, k)
    case Collected => OnList(p.link, Gathered(p), k)
    case Held(t) => HeldBy(p, t) == Some(k)
  }

  lemma OnListIff(link: seq<Ptr>, head: Ptr, s: seq<nat>, k: nat)
    requires Chain(link, head, s)
    ensures OnList(link, head, k) <==> k in s
  {
    if OnList(link, head, k) {
      var r :| Chain(link, head, r) && k in r;
      ChainUnique(link, head, s, r);
    }
  }

  /** The view's collected list is the one the owner's position names. */
  lemma GatheredList(p: Page, v: View)
    requires Inv(p, v)
    ensures Chain(p.link, Gathered(p), v.coll)
  {
    if OwnerOp(p).Some? { assert ThreadOk(p, v, p.owner.value); }
  }

  lemma PlaceIffIsAt(p: Page, v: View, k: nat, x: Place)
    requires Inv(p, v) && k < p.cap
    ensures IsAt(p, k, x) <==> v.place[k] == x
  {
    assert SlotOk(p, v, k);
    OnListIff(p.link, p.localHead, v.local, k);
    OnListIff(p.link, p.head.ptr, v.remote, k);
    GatheredList(p, v);
    OnListIff(p.link, Gathered(p), v.coll, k);
    if x.Held? && x.t in p.ops { assert ThreadOk(p, v, x.t); }
  }

  /** In every reachable state each slot is live, virgin, on the local list, on the remote stack,
      being collected, or held by one thread in the middle of an operation; never two of these. */
  lemma ExactlyOnePlace(p: Page, k: nat)
    requires Reachable(p) && k < p.cap
    ensures exists x :: IsAt(p, k, x) && forall y :: IsAt(p, k, y) ==> y == x
  {
    ReachableInv(p);
    OnePlace(p, k);
  }

  lemma OnePlace(p: Page, k: nat)
    requires PageInv(p) && k < p.cap
    ensures exists x :: IsAt(p, k, x) && forall y :: IsAt(p, k, y) ==> y == x
  {
    var v :| Inv(p, v);
    forall y { PlaceIffIsAt(p, v, k, y); }
    assert IsAt(p, k, v.place[k]);
  }

  // ---- a slot is never handed to two callers ----

  /** The state that further steps lead to from `p`; None if some step is not possible. */
  function Exec(p: Page, run: seq<Action>): Option<Page> {
    if run == [] then Some(p)
    else
      var q := Exec(p, run[..|run| - 1]);
      var a := run[|run| - 1];
      if q.Some? && Ok(q.value, a) then Some(Apply(q.value, a)) else None
  }

  /** How often a run hands out slot `k`, and how often it takes it back. */
  function Given(p: Page, run: seq<Action>, k: nat): nat {
    if run == [] then 0
    else
      var q := Exec(p, run[..|run| - 1]);
      Given(p, run[..|run| - 1], k) + Bit(q.Some? && HandsOut(q.value, run[|run| - 1]) == Some(k))
  }

  function Taken(p: Page, run: seq<Action>, k: nat): nat {
    if run == [] then 0
    else
      var q := Exec(p, run[..|run| - 1]);
      Taken(p, run[..|run| - 1], k) + Bit(q.Some? && TakesBack(q.value, run[|run| - 1]) == Some(k))
  }

  /** Only a slot that is not live is handed out, and only a live one taken back. */
  lemma StepFacts(p: Page, v: View, a: Action)
    requires Inv(p, v) && Ok(p, a)
    ensures HandsOut(p, a).Some? ==> HandsOut(p, a).value !in p.live
    ensures TakesBack(p, a).Some? ==> TakesBack(p, a).value in p.live
  {
    if a.Mark? || a.Check? {
      assert ThreadOk(p, v, a.t);
      if a.Mark? { assert SlotOk(p, v, p.ops[a.t].slot); }
    }
  }

  lemma HandFacts(p: Page, a: Action)
    requires Reachable(p) && Ok(p, a)
    ensures HandsOut(p, a).Some? ==> HandsOut(p, a).value !in p.live
    ensures TakesBack(p, a).Some? ==> TakesBack(p, a).value in p.live
  {
    ReachableInv(p);
    var v :| Inv(p, v);
    StepFacts(p, v, a);
  }

  lemma StepBalance(p: Page, a: Action, k: nat)
    requires Reachable(p) && Ok(p, a)
    ensures Bit(k in Apply(p, a).live) - Bit(k in p.live) ==
      Bit(HandsOut(p, a) == Some(k)) - Bit(TakesBack(p, a) == Some(k))
  {
    HandFacts(p, a);
    StepEffect(p, a);
  }

  /** From any reachable state on, hand-outs and returns of a slot alternate: their difference is the
      change of whether the slot is live. */
  lemma {:induction false} HandoutBalance(p: Page, run: seq<Action>, k: nat)
    requires Reachable(p) && Exec(p, run).Some?
    ensures Reachable(Exec(p, run).value)
    ensures Given(p, run, k) - Taken(p, run, k) == Bit(k in Exec(p, run).value.live) - Bit(k in p.live)
    decreases |run|
  {
    if run != [] {
      var prefix := run[..|run| - 1];
      HandoutBalance(p, prefix, k);
      ReachableStep(Exec(p, prefix).value, run[|run| - 1]);
      StepBalance(Exec(p, prefix).value, run[|run| - 1], k);
    }
  }

  // ---- accounting ----

  /** The local list, the remote stack and the collected list, each spelled out by the links, and what the
      counters hold in terms of them. */
  ghost predicate CountsAs(p: Page, local: seq<nat>, remote: seq<nat>, coll: seq<nat>) {
    && Chain(p.link, p.localHead, local)
    && Chain(p.link, p.head.ptr, remote)
    && Chain(p.link, Gathered(p), coll)
    && Holds16(p.used, |p.live| + |UsedPending(p.ops)|)
    && Holds16(p.localCount, |local|)
    && Holds16(p.remoteCount, |remote| + |coll| + Unsubtracted(p) - |Uncounted(p.ops)|)
  }

  /** The counters hold the true counts modulo 2^16, up to one for each thread between its push, its
      `remote_free_count` increment and its `used` decrement, and up to a collected but not yet
      subtracted batch. */
  lemma CountersInFlight(p: Page)
    requires Reachable(p)
    ensures exists local, remote, coll :: CountsAs(p, local, remote, coll)
  {
    ReachableInv(p);
    var v :| Inv(p, v);
    GatheredList(p, v);
    assert CountsAs(p, v.local, v.remote, v.coll);
  }

  lemma PartitionCount(p: Page, v: View)
    requires Shape(p, v) && Slots(p, v) && Lists(p, v) && p.ops == map[] && v.coll == []
    ensures |p.live| + |v.local| + |v.remote| + (p.cap - p.bump) == p.cap
  {
    ChainNoDup(p.link, p.localHead, v.local);
    ChainNoDup(p.link, p.head.ptr, v.remote);
    forall k: nat | k < p.cap
      ensures k in p.live || k in v.local || k in v.remote || p.bump <= k
      ensures k in p.live ==> k < p.bump && k !in v.local && k !in v.remote
      ensures k in v.local ==> k < p.bump && k !in v.remote
      ensures k in v.remote ==> k < p.bump
    {
      assert SlotOk(p, v, k);
    }
    Covering(p.live, v.local, v.remote, p.bump, p.cap);
  }

  lemma QuiescentExact(p: Page, v: View)
    requires Inv(p, v) && p.ops == map[]
    ensures p.used == |p.live| && p.localCount == |v.local| && p.remoteCount == |v.remote|
    ensures p.used + p.localCount + p.remoteCount + (p.cap - p.bump) == p.cap
  {
    assert UsedPending(p.ops) == {} && Uncounted(p.ops) == {} && OwnerOp(p) == None;
    PartitionCount(p, v);
  }

  /** When no operation is in progress every counter is exact and the page is fully accounted for. */
  lemma QuiescentAccounting(p: Page)
    requires Reachable(p) && p.ops == map[]
    ensures p.used == |p.live|
    ensures exists local, remote ::
      && Chain(p.link, p.localHead, local) && Chain(p.link, p.head.ptr, remote)
      && p.localCount == |local| && p.remoteCount == |remote|
    ensures p.used + p.localCount + p.remoteCount + (p.cap - p.bump) == p.cap
  {
    ReachableInv(p);
    var v :| Inv(p, v);
    QuiescentExact(p, v);
  }
}
