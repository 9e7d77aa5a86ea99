/** What every step of the page protocol keeps: each slot is in exactly one place, the links
    spell out the lists, and the counters hold the true counts up to the steps in flight. */
module PageInvariant {
  import opened Basics
  import opened PageProtocol

  /** The places a slot can be in. */
  datatype Place = Virgin | Live | Local | Remote | Collected | Held(t: Tid)

  /** The lists that the links of a page spell out, and the one place of every slot. */
  datatype View = View(local: seq<nat>, remote: seq<nat>, coll: seq<nat>, place: seq<Place>)

  /** Slot `k` goes to place `x`. */
  function Put(v: View, k: nat, x: Place): View {
    if k < |v.place| then v.(place := v.place[k := x]) else v
  }

  /** Every slot at place `from` goes to place `to`. */
  function Relabel(place: seq<Place>, from: Place, to: Place): (r: seq<Place>)
    ensures |r| == |place|
    ensures forall k | 0 <= k < |r| :: r[k] == if place[k] == from then to else place[k]
  {
    seq(|place|, k requires 0 <= k < |place| => if place[k] == from then to else place[k])
  }

  /** The slot a thread alone can reach. */
  function HeldSlot(pc: PC): Option<nat> {
    if pc.Got? || pc.Counted? || pc.Freeing? || pc.LocalFree? || pc.LocalLinked?
       || pc.RemoteFree? || pc.RemoteLoaded? || pc.RemoteLinked?
    then Some(pc.slot) else None
  }

  function HeldBy(p: Page, t: Tid): Option<nat> {
    if t in p.ops then HeldSlot(p.ops[t]) else None
  }

  /** Positions inside the owner's allocation path. */
  predicate AllocPc(pc: PC) {
    || pc.Popping? || pc.Bumping? || pc.Collecting? || pc.CollectLoaded? || pc.Walking?
    || pc.Splicing? || pc.Subtracting? || pc.Dropping?
  }

  /** Positions only the page's owner reaches. */
  predicate OwnerPc(pc: PC) {
    || AllocPc(pc) || pc.LocalFree? || pc.LocalLinked? || pc.LocalPushed? || pc == FreeStat(true)
    || ((pc.Got? || pc.Counted? || pc.Marked?) && pc.path.Fast?)
  }

  predicate CollPc(pc: PC) { pc.Walking? || pc.Splicing? }

  /** Positions of a slow-path allocation. */
  predicate SlowPc(pc: PC) {
    Locked(pc) || pc.Claiming?
  }

  /** `used` still counts a slot that is no longer live, or already one that is not live yet. */
  predicate UsedPc(pc: PC) {
    || pc.Counted? || pc.Freeing? || pc.LocalFree? || pc.LocalLinked? || pc.LocalPushed? || pc.RemoteFree?
    || pc.RemoteLoaded? || pc.RemoteLinked? || pc.RemotePushed? || pc.RemoteCounted?
  }

  function UsedPending(ops: map<Tid, PC>): set<Tid> {
    set t | t in ops && UsedPc(ops[t])
  }

  /** Pushers that have not incremented `remote_free_count` yet. */
  function Uncounted(ops: map<Tid, PC>): set<Tid> {
    set t | t in ops && ops[t].RemotePushed?
  }

  function OwnerOp(p: Page): Option<PC> {
    if p.owner.Some? && p.owner.value in p.ops then Some(p.ops[p.owner.value]) else None
  }

  /** Slots already spliced into the local list but not yet subtracted from `remote_free_count`. */
  function Unsubtracted(p: Page): nat {
    match OwnerOp(p)
    case Some(Subtracting(n)) => n
    case _ => 0
  }

  ghost predicate Shape(p: Page, v: View) {
    && p.cap == |p.link| == |v.place| <= 4096
    && 0 < p.tagMod
    && p.bump <= p.cap
  }

  /** The place of slot `k` is the only one that contains it. */
  ghost predicate SlotOk(p: Page, v: View, k: nat) {
    && k < |v.place|
    && (v.place[k] == Virgin <==> p.bump <= k)
    && (v.place[k] == Live <==> k in p.live)
    && (v.place[k] == Local <==> k in v.local)
    && (v.place[k] == Remote <==> k in v.remote)
    && (v.place[k] == Collected <==> k in v.coll)
    && (v.place[k].Held? ==> HeldBy(p, v.place[k].t) == Some(k))
  }

  ghost predicate Slots(p: Page, v: View) {
    && (forall k {:trigger SlotOk(p, v, k)} | 0 <= k < p.cap :: SlotOk(p, v, k))
    && (forall k | k in p.live :: k < p.cap)
  }

  ghost predicate Lists(p: Page, v: View) {
    && Chain(p.link, p.localHead, v.local)
    && Chain(p.link, p.head.ptr, v.remote)
    && Chain(p.link, First(v.coll), v.coll)
  }

  /** What a thread's position says about the page. */
  ghost predicate PcOk(p: Page, v: View, pc: PC) {
    match pc
    case Popping(k, n) => v.local != [] && k == v.local[0] && Load(p, k) == n
    case Bumping(b) => b == p.bump < p.cap
    case SlowBumping(b) => b == p.bump < p.cap
    case Collecting => v.local == [] && p.bump == p.cap
    case CollectLoaded(w) => v.local == [] && p.bump == p.cap && w.ptr.At?
    case Dropping => v.local == [] && p.bump == p.cap
    case Walking(list, cur, n) =>
      v.local == [] && p.bump == p.cap && n < |v.coll| && list == v.coll[0] && cur == v.coll[n]
    case Splicing(list, tail, n) =>
      v.local == [] && p.bump == p.cap && 0 < n == |v.coll| && list == v.coll[0] && tail == v.coll[n - 1]
    case Subtracting(n) => v.local != []
    case LocalLinked(k) => Load(p, k) == p.localHead
    case RemoteLinked(k, w) => Load(p, k) == w.ptr
    case _ => true
  }

  ghost predicate ThreadOk(p: Page, v: View, t: Tid) {
    && t in p.ops
    && var pc := p.ops[t];
    && t !in p.exited
    && PcOk(p, v, pc)
    && (OwnerPc(pc) ==> p.owner == Some(t))
    && (InWindow(pc) ==> p.owner == None || p.bump == p.cap)
    && (SlowPc(pc) ==> p.owner != Some(t))
    && (Locked(pc) ==> p.lock == Some(t))
    && (pc.Checking? ==> p.debug)
    && (HeldSlot(pc).Some? ==> HeldSlot(pc).value < |v.place| && v.place[HeldSlot(pc).value] == Held(t))
  }

  ghost predicate Threads(p: Page, v: View) {
    && (forall t {:trigger ThreadOk(p, v, t)} | t in p.ops :: ThreadOk(p, v, t))
    && (v.coll != [] ==> OwnerOp(p).Some? && CollPc(OwnerOp(p).value))
    && (p.lock.Some? ==> p.lock.value in p.ops && Locked(p.ops[p.lock.value]))
  }

  /** A cached page is owned by the thread that caches it; an owner that dropped it left no virgin slot. */
  ghost predicate Caches(p: Page) {
    && (forall t | t in p.cached :: p.owner == Some(t) && t !in p.exited)
    && (p.owner.None? ==> p.localHead.Null?)
    && (p.owner.Some? && p.owner.value !in p.cached && p.owner.value !in p.exited ==>
          p.bump == p.cap && (OwnerOp(p).Some? ==> !AllocPc(OwnerOp(p).value)))
  }

  ghost predicate Counters(p: Page, v: View) {
    && Holds16(p.localCount, |v.local|)
    && Holds16(p.used, |p.live| + |UsedPending(p.ops)|)
    && Holds16(p.remoteCount, |v.remote| + |v.coll| + Unsubtracted(p) - |Uncounted(p.ops)|)
  }

  /** In debug builds the bitmap is the set of live slots, whatever the clients free. */
  ghost predicate Bits(p: Page) {
    p.debug ==> p.bitmap == p.live
  }

  ghost predicate Core(p: Page, v: View) {
    Shape(p, v) && Slots(p, v) && Lists(p, v) && Threads(p, v)
  }

  ghost predicate Inv(p: Page, v: View) {
    Core(p, v) && Caches(p) && Counters(p, v) && Bits(p)
  }

  // ---- one thread acts, the others are undisturbed ----

  /** Slot `j` is where it was. */
  ghost predicate Unmoved(p: Page, v: View, q: Page, w: View, j: nat) {
    && j < |v.place| == |w.place| && w.place[j] == v.place[j]
    && (p.bump <= j <==> q.bump <= j)
    && (j in p.live <==> j in q.live)
    && (j in v.local <==> j in w.local)
    && (j in v.remote <==> j in w.remote)
    && (j in v.coll <==> j in w.coll)
  }

  /** Slots whose first word thread `t`, or a client, may write. */
  ghost predicate Writable(p: Page, t: Tid, place: Place) {
    place == Held(t) || place == Live || (p.owner == Some(t) && (place == Local || place == Collected))
  }

  /** Thread `t` is the only one that may change the bump offset and the local list. */
  predicate Rules(p: Page, t: Tid) {
    p.owner == Some(t) || (p.owner == None && p.lock == Some(t))
  }

  /** A step of thread `t` that moves only the slots of `moved`. */
  ghost predicate Moves(p: Page, v: View, q: Page, w: View, t: Tid, moved: set<nat>)
    requires Shape(p, v) && Shape(q, w) && q.cap == p.cap
  {
    && q.debug == p.debug && q.exited == p.exited && p.bump <= q.bump
    && q.ops - {t} == p.ops - {t}
    && (forall j | 0 <= j < p.cap && !Writable(p, t, v.place[j]) :: q.link[j] == p.link[j])
    && (Rules(p, t) || (w.local == v.local && w.coll == v.coll && q.bump == p.bump && q.localHead == p.localHead))
    && (forall j {:trigger Unmoved(p, v, q, w, j)} {:trigger SlotOk(q, w, j)} | 0 <= j < p.cap ::
          if j in moved then SlotOk(q, w, j) && (v.place[j].Held? ==> v.place[j].t == t)
          else Unmoved(p, v, q, w, j))
    && (HeldBy(p, t).Some? && HeldBy(p, t).value !in moved ==> HeldBy(q, t) == HeldBy(p, t))
    && (t in q.ops ==> ThreadOk(q, w, t))
    && (q.owner == p.owner || (p.owner == None && q.owner == Some(t) && (p.bump == p.cap || forall u | u in p.ops ::
          !InWindow(p.ops[u]))))
    && (q.lock == p.lock || p.lock == None || p.lock == Some(t))
  }

  /** What the others rely on survives the step. */
  lemma OthersKeep(p: Page, v: View, q: Page, w: View, t: Tid, moved: set<nat>, u: Tid)
    requires Shape(p, v) && Slots(p, v) && Threads(p, v) && Lists(p, v) && Shape(q, w) && q.cap == p.cap
    requires Moves(p, v, q, w, t, moved) && u in p.ops && u != t
    ensures PcOk(q, w, p.ops[u])
  {
    assert ThreadOk(p, v, u);
    var pc := p.ops[u];
    if pc.Popping? {
      assert pc.slot in v.local && SlotOk(p, v, pc.slot);
    }
  }

  lemma MovesKeep(p: Page, v: View, q: Page, w: View, t: Tid, moved: set<nat>)
    requires Shape(p, v) && Slots(p, v) && Threads(p, v) && Lists(p, v) && Shape(q, w) && q.cap == p.cap
    requires Moves(p, v, q, w, t, moved)
    ensures forall k {:trigger SlotOk(q, w, k)} | 0 <= k < q.cap :: SlotOk(q, w, k)
    ensures forall u {:trigger ThreadOk(q, w, u)} | u in q.ops :: ThreadOk(q, w, u)
  {
    forall k | 0 <= k < q.cap ensures SlotOk(q, w, k) {
      assert SlotOk(p, v, k);
      if k !in moved {
        assert Unmoved(p, v, q, w, k);
        if v.place[k].Held? && v.place[k].t != t {
          assert v.place[k].t in p.ops - {t};
        }
      }
    }
    forall u | u in q.ops ensures ThreadOk(q, w, u) {
      if u != t {
        assert u in q.ops - {t};
        assert ThreadOk(p, v, u);
        OthersKeep(p, v, q, w, t, moved, u);
        var h := HeldSlot(p.ops[u]);
        if h.Some? {
          assert SlotOk(q, w, h.value);
          if h.value !in moved { assert Unmoved(p, v, q, w, h.value); }
        }
      }
    }
  }
}
