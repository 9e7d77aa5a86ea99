/** The page as the code keeps it, updated in place; each method does what the steps of the page
    protocol do when one thread runs them alone. */
module PageObject {
  import opened Basics
  import opened PageProtocol
  import opened PageForms
  import opened PageInvariant
  import opened PageRuns
  import opened PageSolo

  // ---- whole operations are their closed forms ----

  lemma TakeIs(p: Page, t: Tid, pc: PC)
    requires Alone(p, t, pc) && (pc.Popping? || pc.Bumping?)
    ensures pc.Popping? ==> p.localHead == At(pc.slot) && Take(p, t, pc) == Popped(p.(ops := map[]))
    ensures pc.Bumping? ==> Take(p, t, pc) == Bumped(p.(ops := map[]))
  {
    PcFacts(p, t, pc);
    PopFacts(p, t, pc);
    var q := Take(p, t, pc);
    assert q.ops == map[];
  }

  lemma PopFacts(p: Page, t: Tid, pc: PC)
    requires Alone(p, t, pc)
    ensures pc.Popping? ==> p.localHead == At(pc.slot) && pc.next == Load(p, pc.slot)
  {
    var v :| Inv(p, v);
    assert ThreadOk(p, v, t);
  }

  /** The list of `n` more elements that the walk goes through from its current position. */
  lemma {:induction false} WalkedIs(p: Page, t: Tid, pc: PC)
    requires Alone(p, t, pc) && pc.Walking?
    ensures var r := Walked(p, t, pc); r.0 == p.(ops := map[t := r.1]) && r.1.list == pc.list
    decreases p.cap - pc.count
  {
    PcFacts(p, t, pc);
    if Load(p, pc.cur).At? {
      WalkSolo(p, t, pc);
      WalkedIs(DoWalk(p, t), t, Walking(pc.list, Load(p, pc.cur).slot, Add16(pc.count, 1)));
    }
  }

  lemma SplicedIs(p: Page, t: Tid, pc: PC)
    requires Alone(p, t, pc) && pc.Splicing?
    ensures Spliced(p, t, pc).0.(ops := map[]) ==
      p.(localHead := At(pc.list), localCount := Add16(p.localCount, pc.count),
         remoteCount := Sub16(p.remoteCount, pc.count), ops := map[])
    ensures Spliced(p, t, pc).1 == Popping(pc.list, Load(p, pc.list))
  {
    PcFacts(p, t, pc);
    assert Store(p, pc.tail, p.localHead) == p.link;
  }

  /** What the walk finds out: it counts the collected list and stops at its last element. */
  lemma WalkedCounts(p: Page, t: Tid, pc: PC, remote: seq<nat>)
    requires Alone(p, t, pc) && pc.Walking? && Chain(p.link, At(pc.list), remote)
    ensures Walked(p, t, pc).1.count == |remote|
  {
    WalkedIs(p, t, pc);
    var (q, sp) := Walked(p, t, pc);
    var v :| Inv(q, v);
    assert ThreadOk(q, v, t);
    ChainUnique(p.link, At(pc.list), remote, v.coll);
  }

  /** Collecting moves the whole stack to the empty local list. */
  lemma CollectedIs(p: Page, t: Tid, remote: seq<nat>)
    requires Alone(p, t, Collecting) && p.head.ptr.At? && Chain(p.link, p.head.ptr, remote)
    ensures CollectAll(p, t).0.(ops := map[]) == Regained(p.(ops := map[]), |remote|)
    ensures CollectAll(p, t).1 == Popping(p.head.ptr.slot, Load(p, p.head.ptr.slot))
  {
    CollectLoadSolo(p, t);
    var p1 := DoCollectLoad(p, t);
    CollectCasSolo(p1, t);
    var p2, pc := DoCollectCas(p1, t), Walking(p.head.ptr.slot, p.head.ptr.slot, 0);
    WalkedIs(p2, t, pc);
    WalkedCounts(p2, t, pc, remote);
    var (p3, sp) := Walked(p2, t, pc);
    SplicedIs(p3, t, sp);
  }

  /** The two lists of a page, which hold no live slot. */
  lemma FreeLists(p: Page) returns (local: seq<nat>, remote: seq<nat>)
    requires Quiet(p)
    ensures Chain(p.link, p.localHead, local) && Chain(p.link, p.head.ptr, remote)
    ensures forall k | k in p.live :: k !in local && k !in remote
    ensures p.bump <= p.cap
  {
    var v :| Inv(p, v);
    local, remote := v.local, v.remote;
    forall k | k in p.live ensures k !in local && k !in remote { assert SlotOk(p, v, k); }
  }

  // ---- what the changes mean for the lists and places ----

  /** Linking a slot to the head of a list puts it in front, exactly when it was not on the list already. */
  lemma PushedIff(link: seq<Ptr>, head: Ptr, s: seq<nat>, k: nat)
    requires Chain(link, head, s) && k < |link|
    ensures Chain(link[k := head], At(k), [k] + s) <==> k !in s
  {
    if k !in s {
      ChainFrame(link, link[k := head], head, s);
      ChainPush(link[k := head], head, s, k);
    } else {
      Repeated(s, k);
      if Chain(link[k := head], At(k), [k] + s) { ChainNoDup(link[k := head], At(k), [k] + s); }
    }
  }

  lemma Repeated(s: seq<nat>, k: nat)
    requires k in s
    ensures !NoDup([k] + s)
  {
    var i :| 0 <= i < |s| && s[i] == k;
    assert ([k] + s)[0] == ([k] + s)[i + 1];
  }

  /** A bump takes the first virgin slot to the client and moves no other slot. */
  lemma BumpPlaces(p: Page, j: nat, x: Place)
    requires Quiet(p) && p.bump < p.cap
    ensures IsAt(Bumped(p), j, x) <==> if j == p.bump then x == Live else IsAt(p, j, x)
  {
    var v :| Inv(p, v);
    PlaceIffIsAt(p, v, p.bump, x);
    PlaceIffIsAt(p, v, p.bump, Virgin);
  }

  /** The fast path in closed form. */
  lemma TryCachedIs(p: Page, t: Tid, remote: seq<nat>)
    requires Quiet(p) && t in p.cached && Chain(p.link, p.head.ptr, remote)
    ensures TryCached(p, t) ==
      if p.localHead.At? then Slot(Drawn(p, t, remote), p.localHead.slot, false)
      else if p.bump < p.cap then Slot(Drawn(p, t, remote), p.bump, true)
      else if remote != [] then Slot(Drawn(p, t, remote), remote[0], false)
      else Full(Drawn(p, t, remote))
  {
    FastTrySolo(p, t);
    var p1, pc := DoFastTry(p, t), Stage(p);
    assert p1.(ops := map[]) == p;
    if pc.Popping? || pc.Bumping? {
      TakeIs(p1, t, pc);
    } else if remote != [] {
      CollectedIs(p1, t, remote);
      var (p2, pop) := CollectAll(p1, t);
      TakeIs(p2, t, pop);
    } else {
      CollectLoadSolo(p1, t);
      var p2 := DoCollectLoad(p1, t);
      DropSolo(p2, t);
      assert DoDrop(p2, t).ops == map[];
    }
  }

  /** With no other thread inside an operation, the owner drops a page exactly when every slot is live. */
  lemma FullExactly(p: Page, t: Tid)
    requires Quiet(p) && t in p.cached
    ensures TryCached(p, t).Full? <==> forall k: nat | k < p.cap :: k in p.live
  {
    var local, remote := FreeLists(p);
    TryCachedIs(p, t, remote);
    var r := TryCached(p, t);
    QuietFacts(r.page);
    if r.Full? {
      forall k: nat | k < p.cap ensures k in p.live { NothingLeft(p, remote, k); }
    }
  }

  lemma NothingLeft(p: Page, remote: seq<nat>, k: nat)
    requires Quiet(p) && p.localHead.Null? && p.bump == p.cap && k < p.cap
    requires Chain(p.link, p.head.ptr, remote) && remote == []
    ensures k in p.live
  {
    var v :| Inv(p, v);
    ChainUnique(p.link, p.head.ptr, remote, v.remote);
    assert SlotOk(p, v, k);
  }

  lemma FreedIs(p: Page, t: Tid, k: nat)
    requires Quiet(p) && k in p.live && t !in p.exited
    ensures Freed(p, t, k) == FreedBy(p, t, k)
  {
  }

  lemma FromUnownedIs(p: Page, t: Tid, claim: bool)
    requires Quiet(p) && p.owner == None && p.bump < p.cap && t !in p.exited
    ensures FromUnowned(p, t, claim) == Claimed(p, t, claim)
  {
    var q := FromUnowned(p, t, claim);
    assert q.ops == map[];
  }

  class SlabPage {
    const cap: nat
    const link: array<Ptr>
    var owner: Option<Tid>
    var bump: nat
    var localHead: Ptr
    var localCount: nat
    var head: Word
    var remoteCount: nat
    var used: nat
    ghost var live: set<nat>
    ghost var cached: set<Tid>

    ghost function Value(): Page
      reads this, link
    {
      Page(cap, COUNTER_MOD, false, owner, bump, localHead, localCount, head, remoteCount, used, link[..], {}, live,
           cached, {}, map[], None, false)
    }

    /** page_init. */
    constructor (cap: nat)
      requires cap <= 4096
      ensures Value() == Blank(cap) && Quiet(Value()) && fresh(link)
    {
      this.cap := cap;
      link := new Ptr[cap](_ => Null);
      owner, bump := None, 0;
      localHead, localCount := Null, 0;
      head, remoteCount, used := Word(Null, 0), 0, 0;
      live, cached := {}, {};
      new;
      assert link[..] == seq(cap, _ => Null);
      BlankQuiet(cap);
    }

    /** The bump of arena_alloc on an unowned page, and the ownership claim that follows it, which a thread
        without thread-local data skips. */
    method BumpUnowned(t: Tid, claim: bool) returns (k: nat)
      requires Quiet(Value()) && owner == None && bump < cap
      modifies this
      ensures k == old(bump) && Value() == FromUnowned(old(Value()), t, claim)
    {
      FromUnownedIs(Value(), t, claim);
      k := Bump();
      if claim {
        owner := Some(t);
        cached := cached + {t};
      }
    }

    /** page_free_slot_local. */
    method FreeLocal(k: nat, ghost local: seq<nat>)
      requires k < link.Length && Chain(link[..], localHead, local)
      modifies this, link
      ensures Chain(link[..], localHead, [k] + local) <==> k !in local
      ensures Value() == old(Value().(link := Store(Value(), k, localHead), localHead := At(k),
                                      localCount := Add16(localCount, 1), used := Sub16(used, 1), live := live - {k}))
    {
      PushedIff(link[..], localHead, local, k);
      link[k] := localHead;
      localHead := At(k);
      localCount := Add16(localCount, 1);
      used := Sub16(used, 1);
      live := live - {k};
    }

    /** page_free_slot_remote. */
    method FreeRemote(k: nat, ghost remote: seq<nat>)
      requires k < link.Length && Chain(link[..], head.ptr, remote)
      modifies this, link
      ensures Chain(link[..], head.ptr, [k] + remote) <==> k !in remote
      ensures Value() == old(Value().(link := Store(Value(), k, head.ptr),
                                      head := Word(At(k), NextTag(head.tag, COUNTER_MOD)),
                                      remoteCount := Add16(remoteCount, 1), used := Sub16(used, 1), live := live - {k}))
    {
      PushedIff(link[..], head.ptr, remote, k);
      link[k] := head.ptr;
      head := Word(At(k), NextTag(head.tag, COUNTER_MOD));
      remoteCount := Add16(remoteCount, 1);
      used := Sub16(used, 1);
      live := live - {k};
    }

    /** slab_free, once the page is known. */
    method Free(t: Tid, k: nat)
      requires Quiet(Value()) && k in live
      modifies this, link
      ensures Value() == Freed(old(Value()), t, k)
    {
      QuietFacts(Value());
      FreedIs(Value(), t, k);
      ghost var local, remote := FreeLists(Value());
      if owner == Some(t) { FreeLocal(k, local); } else { FreeRemote(k, remote); }
    }

    /** The walk of page_collect_remote: the last element of the list, and how many there are. */
    method Walk(first: nat, ghost list: seq<nat>) returns (tail: nat, count: nat)
      requires Chain(link[..], At(first), list) && list != []
      ensures tail == list[|list| - 1] && tail in list && count == |list| % COUNTER_MOD
      ensures tail < link.Length && link[tail] == Null
    {
      var current := first;
      tail, count := first, 0;
      ghost var i := 0;
      while true
        invariant i < |list| && current == list[i] && count == i % COUNTER_MOD
        decreases |list| - i
      {
        tail := current;
        count := Add16(count, 1);
        assert list[i] in list && Fetch(link[..], list[i]) == After(list, i);
        var next := link[current];
        if next.Null? { break; }
        current := next.slot;
        i := i + 1;
      }
    }

    /** page_collect_remote: the stack `remote` goes, as it is, in front of the local list `local`. */
    method CollectRemote(ghost remote: seq<nat>, ghost local: seq<nat>)
      requires Chain(link[..], head.ptr, remote) && Chain(link[..], localHead, local)
      requires forall k | k in remote :: k !in local
      modifies this, link
      ensures Chain(link[..], localHead, remote + local)
      ensures forall k | 0 <= k < link.Length && k !in remote :: link[k] == old(link[k])
      ensures local == [] ==> link[..] == old(link[..])
      ensures remote == [] ==> Value() == old(Value())
      ensures remote != [] ==> Value() == old(Value()).(link := link[..], localHead := old(head.ptr),
        localCount := Add16(old(localCount), |remote|), remoteCount := Sub16(old(remoteCount), |remote|),
        head := Word(Null, NextTag(old(head.tag), COUNTER_MOD)))
    {
      var list := head.ptr;
      if list.Null? {
        assert remote + local == local;
        return;
      }
      head := Word(Null, NextTag(head.tag, COUNTER_MOD));
      var tail, count := Walk(list.slot, remote);
      ChainSplice(link[..], remote, localHead, local);
      link[tail] := localHead;
      localHead := list;
      localCount := Add16(localCount, count);
      remoteCount := Sub16(remoteCount, count);
    }

    /** The head of the local list, which is not empty. */
    method Pop(ghost local: seq<nat>) returns (k: nat)
      requires Chain(link[..], localHead, local) && local != []
      modifies this
      ensures k == local[0] && Chain(link[..], localHead, local[1..])
      ensures At(k) == old(localHead) && Value() == Popped(old(Value()))
    {
      ChainSuffix(link[..], localHead, local, 1);
      assert local[0] in local;
      k := localHead.slot;
      localHead := link[k];
      localCount := Sub16(localCount, 1);
      used := Add16(used, 1);
      live := live + {k};
    }

    /** The next virgin slot. */
    method Bump() returns (k: nat)
      requires Quiet(Value()) && bump < cap
      modifies this
      ensures k == old(bump) && Value() == Bumped(old(Value()))
      ensures forall j: nat, x: Place :: IsAt(Value(), j, x) <==> if j == k then x == Live else IsAt(old(Value()), j, x)
    {
      ghost var p := Value();
      forall j: nat, x: Place ensures IsAt(Bumped(p), j, x) <==> if j == bump then x == Live else IsAt(p, j, x) {
        BumpPlaces(p, j, x);
      }
      k := bump;
      bump := bump + 1;
      used := Add16(used, 1);
      live := live + {k};
    }

    /** page_alloc_slot, and the fast path of slab_alloc_inner, which drops the page when it is full. */
    method Alloc(t: Tid) returns (slot: Option<nat>, zeroed: bool)
      requires Quiet(Value()) && t in cached
      modifies this, link
      ensures TryCached(old(Value()), t) == if slot.Some? then Slot(Value(), slot.value, zeroed) else Full(Value())
    {
      ghost var local, remote := FreeLists(Value());
      TryCachedIs(Value(), t, remote);
      if localHead.At? {
        var k := Pop(local);
        return Some(k), false;
      }
      if bump < cap {
        var k := Bump();
        return Some(k), true;
      }
      slot := AllocCollected(t, remote);
      zeroed := false;
    }

    /** The last stage, once the local list and the virgin slots are used up. */
    method AllocCollected(t: Tid, ghost remote: seq<nat>) returns (slot: Option<nat>)
      requires Chain(link[..], head.ptr, remote) && localHead == Null
      modifies this, link
      ensures slot == if remote != [] then Some(remote[0]) else None
      ensures Value() == if remote != [] then Popped(Regained(old(Value()), |remote|))
                         else old(Value()).(cached := old(cached) - {t})
    {
      CollectRemote(remote, []);
      assert remote + [] == remote;
      if localHead.At? {
        var k := Pop(remote);
        return Some(k);
      }
      cached := cached - {t};
      return None;
    }
  }
}
