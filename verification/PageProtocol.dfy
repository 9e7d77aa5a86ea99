/** One 64 KB slab page shared by any number of threads, as a state machine whose steps are
    the individual accesses of the allocation and free paths to memory that other threads may change. */
module PageProtocol {
  import opened Basics

  /** Which code path obtained a slot: the owner's cached page, or the arena under its lock. */
  datatype Path = Fast | Slow

  /** Where a thread stands inside an operation on this page. */
  datatype PC =
    // allocation
    | Popping(slot: nat, next: Ptr)            // head and its link were read
    | Bumping(slot: nat)                       // owner read the bump offset
    | SlowTested                               // under the arena lock: page seen unowned
    | SlowBumping(slot: nat)                   // under the arena lock: bump offset read
    | Got(slot: nat, path: Path)               // slot taken, `used` not yet incremented
    | Counted(slot: nat, path: Path)           // `used` incremented, slot not yet handed out
    | Marked(path: Path)                       // slot handed out, statistics not yet updated
    | Claiming                                 // about to try the ownership CAS
    // collecting remote frees
    | Collecting
    | CollectLoaded(word: Word)
    | Walking(list: nat, cur: nat, count: nat)
    | Splicing(list: nat, tail: nat, count: nat)
    | Subtracting(count: nat)
    | Dropping                                 // stack seen empty, cache not yet cleared
    // free
    | Checking(slot: nat)                      // free called, nothing done yet
    | Freeing(slot: nat)                       // slot given up by the client
    | LocalFree(slot: nat)
    | LocalLinked(slot: nat)
    | LocalPushed
    | RemoteFree(slot: nat)
    | RemoteLoaded(slot: nat, word: Word)
    | RemoteLinked(slot: nat, word: Word)
    | RemotePushed                             // pushed, `remote_free_count` not yet incremented
    | RemoteCounted                            // `used` not yet decremented
    | FreeStat(local: bool)                    // statistics not yet updated

  datatype Page = Page(
    cap: nat,                 // capacity
    tagMod: nat,              // number of distinct stack tags (65536 in the code)
    debug: bool,              // built with the allocation bitmap
    owner: Option<Tid>,       // owner_tid; None is UINT32_MAX
    bump: nat,                // bump_offset, in slots
    localHead: Ptr,
    localCount: nat,
    head: Word,               // remote_free
    remoteCount: nat,
    used: nat,
    link: seq<Ptr>,      // first word of every slot
    bitmap: set<nat>,
    live: set<nat>,           // slots the clients hold
    cached: set<Tid>,         // threads whose bin_page entry is this page
    exited: set<Tid>,
    ops: map<Tid, PC>,        // threads inside an operation on this page
    lock: Option<Tid>,        // holder of the arena lock while it works on this page
    aborted: bool)

  datatype Action =
    | FastTry(t: Tid)
    | PopWrite(t: Tid)
    | BumpWrite(t: Tid)
    | CountUsed(t: Tid)
    | Mark(t: Tid)
    | FastStat(t: Tid)
    | SlowStat(t: Tid)
    | SlowTest(t: Tid)
    | SlowRead(t: Tid)
    | SlowWrite(t: Tid)
    | Claim(t: Tid)
    | SkipClaim(t: Tid)
    | CollectLoad(t: Tid)
    | CollectRetry(t: Tid)
    | CollectCas(t: Tid)
    | Walk(t: Tid)
    | WalkEnd(t: Tid)
    | Splice(t: Tid)
    | Subtract(t: Tid)
    | Drop(t: Tid)
    | FreeCall(t: Tid, slot: nat)
    | FreeUnchecked(t: Tid, slot: nat)
    | Check(t: Tid)
    | Abort(t: Tid)
    | OwnerLoad(t: Tid)
    | LocalLink(t: Tid)
    | LocalPush(t: Tid)
    | UsedSub(t: Tid)
    | RemoteLoad(t: Tid)
    | RemoteLink(t: Tid)
    | RemoteRetry(t: Tid)
    | RemoteCas(t: Tid)
    | RemoteCount(t: Tid)
    | StatFree(t: Tid)
    | ClientWrite(slot: nat, word: Ptr)
    | Exit(t: Tid)

  /** A page just initialised by thread `t`, which still holds the arena lock. */
  function Fresh(tagMod: nat, debug: bool, link: seq<Ptr>, exited: set<Tid>, t: Tid): Page {
    Page(|link|, tagMod, debug, None, 0, Null, 0, Word(Null, 0), 0, 0, link, {}, {}, {}, exited,
         map[t := SlowBumping(0)], Some(t), false)
  }

  predicate Idle(p: Page, t: Tid) {
    t !in p.ops && t !in p.exited
  }

  /** The pcs inside the arena lock. */
  predicate Locked(pc: PC) {
    pc.SlowTested? || pc.SlowBumping? || ((pc.Got? || pc.Counted? || pc.Marked?) && pc.path.Slow?)
  }

  /** Between the owner test and the bump of the slow path. */
  predicate InWindow(pc: PC) {
    pc.SlowTested? || pc.SlowBumping?
  }

  function Set(p: Page, t: Tid, pc: PC): map<Tid, PC> { p.ops[t := pc] }

  function Done(p: Page, t: Tid): map<Tid, PC> { p.ops - {t} }

  function Load(p: Page, k: nat): Ptr { Fetch(p.link, k) }

  function Store(p: Page, k: nat, word: Ptr): seq<Ptr> { if k < |p.link| then p.link[k := word] else p.link }

  /** What the owner reads first: the local list, then the bump region, then the remote stack. */
  function Stage(p: Page): PC {
    match p.localHead
    case At(k) => Popping(k, Load(p, k))
    case Null => if p.bump < p.cap then Bumping(p.bump) else Collecting
  }

  // ---- the steps ----
  // Each is one access to a word that other threads may change. Accesses to what only the acting thread uses at
  // that point are grouped with it: the owner's local list and bump offset, a collected list, its page cache.

  function DoFastTry(p: Page, t: Tid): Page
    requires Idle(p, t) && t in p.cached
  {
    p.(ops := Set(p, t, Stage(p)))
  }

  function DoPopWrite(p: Page, t: Tid): Page
    requires t in p.ops && p.ops[t].Popping?
  {
    p.(localHead := p.ops[t].next, localCount := Sub16(p.localCount, 1), ops := Set(p, t, Got(p.ops[t].slot, Fast)))
  }

  function DoBumpWrite(p: Page, t: Tid): Page
    requires t in p.ops && p.ops[t].Bumping?
  {
    p.(bump := p.ops[t].slot + 1, ops := Set(p, t, Got(p.ops[t].slot, Fast)))
  }

  function DoCountUsed(p: Page, t: Tid): Page
    requires t in p.ops && p.ops[t].Got?
  {
    p.(used := Add16(p.used, 1), ops := Set(p, t, Counted(p.ops[t].slot, p.ops[t].path)))
  }

  function DoMark(p: Page, t: Tid): Page
    requires t in p.ops && p.ops[t].Counted? && (p.debug ==> p.ops[t].slot !in p.bitmap)
  {
    var k := p.ops[t].slot;
    p.(bitmap := if p.debug then p.bitmap + {k} else p.bitmap,
       live := p.live + {k}, ops := Set(p, t, Marked(p.ops[t].path)))
  }

  function DoFastStat(p: Page, t: Tid): Page
    requires t in p.ops && p.ops[t] == Marked(Fast)
  {
    p.(ops := Done(p, t))
  }

  function DoSlowStat(p: Page, t: Tid): Page
    requires t in p.ops && p.ops[t] == Marked(Slow)
  {
    p.(ops := Set(p, t, Claiming), lock := None)
  }

  function DoSlowTest(p: Page, t: Tid): Page
    requires Idle(p, t) && p.lock.None? && p.owner.None?
  {
    p.(ops := Set(p, t, SlowTested), lock := Some(t))
  }

  function DoSlowRead(p: Page, t: Tid): Page
    requires t in p.ops && p.ops[t].SlowTested?
  {
    if p.bump < p.cap then p.(ops := Set(p, t, SlowBumping(p.bump))) else p.(ops := Done(p, t), lock := None)
  }

  function DoSlowWrite(p: Page, t: Tid): Page
    requires t in p.ops && p.ops[t].SlowBumping?
  {
    p.(bump := p.ops[t].slot + 1, ops := Set(p, t, Got(p.ops[t].slot, Slow)))
  }

  function DoClaim(p: Page, t: Tid): Page
    requires t in p.ops && p.ops[t].Claiming?
  {
    if p.owner.None? then p.(owner := Some(t), cached := p.cached + {t}, ops := Done(p, t))
    else if p.owner == Some(t) then p.(cached := p.cached + {t}, ops := Done(p, t))
    else p.(ops := Done(p, t))
  }

  function DoSkipClaim(p: Page, t: Tid): Page
    requires t in p.ops && p.ops[t].Claiming?
  {
    p.(ops := Done(p, t))
  }

  function DoCollectLoad(p: Page, t: Tid): Page
    requires t in p.ops && p.ops[t].Collecting?
  {
    p.(ops := Set(p, t, if p.head.ptr.Null? then Dropping else CollectLoaded(p.head)))
  }

  function DoCollectRetry(p: Page, t: Tid): Page
    requires t in p.ops && p.ops[t].CollectLoaded?
  {
    p.(ops := Set(p, t, Collecting))
  }

  function DoCollectCas(p: Page, t: Tid): Page
    requires t in p.ops && p.ops[t].CollectLoaded? && p.head == p.ops[t].word && p.head.ptr.At?
  {
    var k := p.head.ptr.slot;
    p.(head := Word(Null, NextTag(p.head.tag, p.tagMod)), ops := Set(p, t, Walking(k, k, 0)))
  }

  function DoWalk(p: Page, t: Tid): Page
    requires t in p.ops && p.ops[t].Walking? && Load(p, p.ops[t].cur).At?
  {
    var pc := p.ops[t];
    p.(ops := Set(p, t, Walking(pc.list, Load(p, pc.cur).slot, Add16(pc.count, 1))))
  }

  function DoWalkEnd(p: Page, t: Tid): Page
    requires t in p.ops && p.ops[t].Walking? && Load(p, p.ops[t].cur).Null?
  {
    var pc := p.ops[t];
    p.(ops := Set(p, t, Splicing(pc.list, pc.cur, Add16(pc.count, 1))))
  }

  function DoSplice(p: Page, t: Tid): Page
    requires t in p.ops && p.ops[t].Splicing?
  {
    var pc := p.ops[t];
    p.(link := Store(p, pc.tail, p.localHead), localHead := At(pc.list),
       localCount := Add16(p.localCount, pc.count), ops := Set(p, t, Subtracting(pc.count)))
  }

  function DoSubtract(p: Page, t: Tid): Page
    requires t in p.ops && p.ops[t].Subtracting?
  {
    p.(remoteCount := Sub16(p.remoteCount, p.ops[t].count),
       ops := Set(p, t, if p.localHead.Null? then Dropping else Popping(p.localHead.slot, Load(p, p.localHead.slot))))
  }

  function DoDrop(p: Page, t: Tid): Page
    requires t in p.ops && p.ops[t].Dropping?
  {
    p.(cached := p.cached - {t}, ops := Done(p, t))
  }

  function DoFreeCall(p: Page, t: Tid, k: nat): Page
    requires Idle(p, t) && p.debug
  {
    p.(ops := Set(p, t, Checking(k)))
  }

  function DoFreeUnchecked(p: Page, t: Tid, k: nat): Page
    requires Idle(p, t) && !p.debug && k in p.live
  {
    p.(live := p.live - {k}, ops := Set(p, t, Freeing(k)))
  }

  function DoCheck(p: Page, t: Tid): Page
    requires t in p.ops && p.ops[t].Checking? && p.ops[t].slot in p.bitmap
  {
    var k := p.ops[t].slot;
    p.(bitmap := p.bitmap - {k}, live := p.live - {k}, ops := Set(p, t, Freeing(k)))
  }

  function DoAbort(p: Page, t: Tid): Page
    requires t in p.ops && p.debug
    requires (p.ops[t].Checking? && p.ops[t].slot !in p.bitmap) || (p.ops[t].Counted? && p.ops[t].slot in p.bitmap)
  {
    p.(aborted := true)
  }

  function DoOwnerLoad(p: Page, t: Tid): Page
    requires t in p.ops && p.ops[t].Freeing?
  {
    var k := p.ops[t].slot;
    p.(ops := Set(p, t, if p.owner == Some(t) then LocalFree(k) else RemoteFree(k)))
  }

  function DoLocalLink(p: Page, t: Tid): Page
    requires t in p.ops && p.ops[t].LocalFree?
  {
    var k := p.ops[t].slot;
    p.(link := Store(p, k, p.localHead), ops := Set(p, t, LocalLinked(k)))
  }

  function DoLocalPush(p: Page, t: Tid): Page
    requires t in p.ops && p.ops[t].LocalLinked?
  {
    p.(localHead := At(p.ops[t].slot), localCount := Add16(p.localCount, 1), ops := Set(p, t, LocalPushed))
  }

  function DoUsedSub(p: Page, t: Tid): Page
    requires t in p.ops && (p.ops[t].LocalPushed? || p.ops[t].RemoteCounted?)
  {
    p.(used := Sub16(p.used, 1), ops := Set(p, t, FreeStat(p.ops[t].LocalPushed?)))
  }

  function DoRemoteLoad(p: Page, t: Tid): Page
    requires t in p.ops && p.ops[t].RemoteFree?
  {
    p.(ops := Set(p, t, RemoteLoaded(p.ops[t].slot, p.head)))
  }

  function DoRemoteLink(p: Page, t: Tid): Page
    requires t in p.ops && p.ops[t].RemoteLoaded?
  {
    var pc := p.ops[t];
    p.(link := Store(p, pc.slot, pc.word.ptr), ops := Set(p, t, RemoteLinked(pc.slot, pc.word)))
  }

  function DoRemoteRetry(p: Page, t: Tid): Page
    requires t in p.ops && p.ops[t].RemoteLinked?
  {
    p.(ops := Set(p, t, RemoteFree(p.ops[t].slot)))
  }

  function DoRemoteCas(p: Page, t: Tid): Page
    requires t in p.ops && p.ops[t].RemoteLinked? && p.head == p.ops[t].word
  {
    p.(head := Word(At(p.ops[t].slot), NextTag(p.head.tag, p.tagMod)), ops := Set(p, t, RemotePushed))
  }

  function DoRemoteCount(p: Page, t: Tid): Page
    requires t in p.ops && p.ops[t].RemotePushed?
  {
    p.(remoteCount := Add16(p.remoteCount, 1), ops := Set(p, t, RemoteCounted))
  }

  function DoStatFree(p: Page, t: Tid): Page
    requires t in p.ops && p.ops[t].FreeStat?
  {
    p.(ops := Done(p, t))
  }

  function DoExit(p: Page, t: Tid): Page
    requires Idle(p, t)
  {
    p.(exited := p.exited + {t}, cached := p.cached - {t})
  }

  predicate Enabled(p: Page, a: Action) {
    !p.aborted &&
    match a
    case FastTry(t) => Idle(p, t) && t in p.cached
    case PopWrite(t) => t in p.ops && p.ops[t].Popping?
    case BumpWrite(t) => t in p.ops && p.ops[t].Bumping?
    case CountUsed(t) => t in p.ops && p.ops[t].Got?
    case Mark(t) => t in p.ops && p.ops[t].Counted? && (p.debug ==> p.ops[t].slot !in p.bitmap)
    case FastStat(t) => t in p.ops && p.ops[t] == Marked(Fast)
    case SlowStat(t) => t in p.ops && p.ops[t] == Marked(Slow)
    case SlowTest(t) => Idle(p, t) && p.lock.None? && p.owner.None?
    case SlowRead(t) => t in p.ops && p.ops[t].SlowTested?
    case SlowWrite(t) => t in p.ops && p.ops[t].SlowBumping?
    case Claim(t) => t in p.ops && p.ops[t].Claiming?
    case SkipClaim(t) => t in p.ops && p.ops[t].Claiming?
    case CollectLoad(t) => t in p.ops && p.ops[t].Collecting?
    case CollectRetry(t) => t in p.ops && p.ops[t].CollectLoaded?
    case CollectCas(t) => t in p.ops && p.ops[t].CollectLoaded? && p.head == p.ops[t].word && p.head.ptr.At?
    case Walk(t) => t in p.ops && p.ops[t].Walking? && Load(p, p.ops[t].cur).At?
    case WalkEnd(t) => t in p.ops && p.ops[t].Walking? && Load(p, p.ops[t].cur).Null?
    case Splice(t) => t in p.ops && p.ops[t].Splicing?
    case Subtract(t) => t in p.ops && p.ops[t].Subtracting?
    case Drop(t) => t in p.ops && p.ops[t].Dropping?
    case FreeCall(t, k) => Idle(p, t) && p.debug
    case FreeUnchecked(t, k) => Idle(p, t) && !p.debug && k in p.live
    case Check(t) => t in p.ops && p.ops[t].Checking? && p.ops[t].slot in p.bitmap
    case Abort(t) =>
      && t in p.ops && p.debug
      && ((p.ops[t].Checking? && p.ops[t].slot !in p.bitmap) || (p.ops[t].Counted? && p.ops[t].slot in p.bitmap))
    case OwnerLoad(t) => t in p.ops && p.ops[t].Freeing?
    case LocalLink(t) => t in p.ops && p.ops[t].LocalFree?
    case LocalPush(t) => t in p.ops && p.ops[t].LocalLinked?
    case UsedSub(t) => t in p.ops && (p.ops[t].LocalPushed? || p.ops[t].RemoteCounted?)
    case RemoteLoad(t) => t in p.ops && p.ops[t].RemoteFree?
    case RemoteLink(t) => t in p.ops && p.ops[t].RemoteLoaded?
    case RemoteRetry(t) => t in p.ops && p.ops[t].RemoteLinked?
    case RemoteCas(t) => t in p.ops && p.ops[t].RemoteLinked? && p.head == p.ops[t].word
    case RemoteCount(t) => t in p.ops && p.ops[t].RemotePushed?
    case StatFree(t) => t in p.ops && p.ops[t].FreeStat?
    case Exit(t) => Idle(p, t)
    case ClientWrite(k, _) => k in p.live
  }

  function Apply(p: Page, a: Action): Page
    requires Enabled(p, a)
  {
    match a
    case FastTry(t) => DoFastTry(p, t)
    case PopWrite(t) => DoPopWrite(p, t)
    case BumpWrite(t) => DoBumpWrite(p, t)
    case CountUsed(t) => DoCountUsed(p, t)
    case Mark(t) => DoMark(p, t)
    case FastStat(t) => DoFastStat(p, t)
    case SlowStat(t) => DoSlowStat(p, t)
    case SlowTest(t) => DoSlowTest(p, t)
    case SlowRead(t) => DoSlowRead(p, t)
    case SlowWrite(t) => DoSlowWrite(p, t)
    case Claim(t) => DoClaim(p, t)
    case SkipClaim(t) => DoSkipClaim(p, t)
    case CollectLoad(t) => DoCollectLoad(p, t)
    case CollectRetry(t) => DoCollectRetry(p, t)
    case CollectCas(t) => DoCollectCas(p, t)
    case Walk(t) => DoWalk(p, t)
    case WalkEnd(t) => DoWalkEnd(p, t)
    case Splice(t) => DoSplice(p, t)
    case Subtract(t) => DoSubtract(p, t)
    case Drop(t) => DoDrop(p, t)
    case FreeCall(t, k) => DoFreeCall(p, t, k)
    case FreeUnchecked(t, k) => DoFreeUnchecked(p, t, k)
    case Check(t) => DoCheck(p, t)
    case Abort(t) => DoAbort(p, t)
    case OwnerLoad(t) => DoOwnerLoad(p, t)
    case LocalLink(t) => DoLocalLink(p, t)
    case LocalPush(t) => DoLocalPush(p, t)
    case UsedSub(t) => DoUsedSub(p, t)
    case RemoteLoad(t) => DoRemoteLoad(p, t)
    case RemoteLink(t) => DoRemoteLink(p, t)
    case RemoteRetry(t) => DoRemoteRetry(p, t)
    case RemoteCas(t) => DoRemoteCas(p, t)
    case RemoteCount(t) => DoRemoteCount(p, t)
    case StatFree(t) => DoStatFree(p, t)
    case Exit(t) => DoExit(p, t)
    case ClientWrite(k, word) => p.(link := Store(p, k, word))
  }

  /** Hypothesis H: no ownership claim succeeds on a page with virgin slots while another thread
      stands between its owner test and its bump there. */
  predicate ClaimSafe(p: Page, a: Action) {
    a.Claim? && p.owner.None? && p.bump < p.cap ==> forall t | t in p.ops :: !InWindow(p.ops[t])
  }

  predicate Ok(p: Page, a: Action) {
    Enabled(p, a) && ClaimSafe(p, a)
  }
}
