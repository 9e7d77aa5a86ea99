/** What holds in every run of the whole slab allocator, for any number of threads, pages and arenas. */
module SlabsRuns {
  import opened Basics
  import opened PageProtocol
  import opened PageInvariant
  import opened PageRuns
  import opened PageOwner
  import opened PageNet
  import opened Slabs
  import opened SlabsProof
  import opened SlabsLedger

  /** A run, whether or not it respects H. */
  ghost predicate IsRun(states: seq<Sys>, moves: seq<Move>) {
    && |states| == |moves| + 1
    && (exists arenas :: states[0] == Start(arenas))
    && forall i {:trigger moves[i]} | 0 <= i < |moves| ::
         CanMove(states[i], moves[i]) && states[i + 1] == Moved(states[i], moves[i])
  }

  /** A run that respects H on every page. */
  ghost predicate IsSafeRun(states: seq<Sys>, moves: seq<Move>) {
    IsRun(states, moves) && forall i {:trigger moves[i]} | 0 <= i < |moves| :: Safe(states[i], moves[i])
  }

  ghost predicate Reachable(s: Sys) {
    exists states, moves :: IsRun(states, moves) && states[|moves|] == s
  }

  ghost predicate SafelyReachable(s: Sys) {
    exists states, moves :: IsSafeRun(states, moves) && states[|moves|] == s
  }

  /** Every state of every run is consistent, with or without H. */
  lemma {:induction false} EveryRun(states: seq<Sys>, moves: seq<Move>, i: nat)
    requires IsRun(states, moves) && i <= |moves|
    ensures SysOk(states[i]) && PagesOwned(states[i])
    decreases i
  {
    if i == 0 {
      var arenas :| states[0] == Start(arenas);
      StartOk(arenas);
    } else {
      EveryRun(states, moves, i - 1);
      assert CanMove(states[i - 1], moves[i - 1]);
      MoveKeeps(states[i - 1], moves[i - 1]);
      MoveOwned(states[i - 1], moves[i - 1]);
    }
  }

  /** Every state of every run that respects H satisfies the page invariant on every page. */
  lemma {:induction false} EverySafeRun(states: seq<Sys>, moves: seq<Move>, i: nat)
    requires IsSafeRun(states, moves) && i <= |moves|
    ensures PagesOk(states[i])
    decreases i
  {
    if i == 0 {
      var arenas :| states[0] == Start(arenas);
    } else {
      EveryRun(states, moves, i - 1);
      EverySafeRun(states, moves, i - 1);
      assert Safe(states[i - 1], moves[i - 1]);
      MoveGood(states[i - 1], moves[i - 1]);
    }
  }

  lemma ReachableOk(s: Sys)
    requires Reachable(s)
    ensures SysOk(s) && PagesOwned(s)
  {
    var states, moves :| IsRun(states, moves) && states[|moves|] == s;
    EveryRun(states, moves, |moves|);
  }

  lemma SafeOk(s: Sys)
    requires SafelyReachable(s)
    ensures PagesOk(s)
  {
    var states, moves :| IsSafeRun(states, moves) && states[|moves|] == s;
    EverySafeRun(states, moves, |moves|);
  }

  /** Each slot of each page is in exactly one place. */
  lemma EverySlotOnce(s: Sys, pid: Pid, k: nat)
    requires SafelyReachable(s) && pid in s.slabs && k < s.slabs[pid].page.cap
    ensures exists x :: IsAt(s.slabs[pid].page, k, x) && forall y :: IsAt(s.slabs[pid].page, k, y) ==> y == x
  {
    SafeOk(s);
    OnePlace(s.slabs[pid].page, k);
  }

  /** In every run, with or without H: a page cached in a thread's bin_page[b] has bin b and is owned by that
      thread, which is attached to the page's arena; and no other cache entry, of this or another thread, names
      the same page. */
  lemma CacheIsOwned(s: Sys, t: Tid, b: nat)
    requires Reachable(s) && t in s.tlds && b in s.tlds[t].binPage
    ensures var pid := s.tlds[t].binPage[b];
            && pid in s.slabs && s.slabs[pid].bin == b && s.slabs[pid].page.owner == Some(t)
            && s.tlds[t].arena == Some(s.slabs[pid].arena)
            && forall u, c | u in s.tlds && c in s.tlds[u].binPage && s.tlds[u].binPage[c] == pid :: u == t && c == b
  {
    ReachableOk(s);
    assert TldOk(s, t);
    var pid := s.tlds[t].binPage[b];
    assert SlabOk(s, pid);
    forall u, c | u in s.tlds && c in s.tlds[u].binPage && s.tlds[u].binPage[c] == pid ensures u == t && c == b {
      assert TldOk(s, u);
    }
  }

  /** In every run, with or without H: a thread's backlog stays below 64 operations, and no flush meets a
      null arena. */
  lemma BacklogBounded(s: Sys, t: Tid)
    requires Reachable(s)
    ensures !s.crashed
    ensures t in s.tlds ==> s.tlds[t].ops < 64
  {
    ReachableOk(s);
    if t in s.tlds { assert TldOk(s, t); }
  }

  // ---- statistics ----

  lemma {:induction false} LedgerRuns(states: seq<Sys>, moves: seq<Move>, i: nat, arena: nat, n: nat)
    requires IsSafeRun(states, moves) && i <= |moves| && Covers(states[i], n) && arena < |states[0].arenas|
    ensures Balanced(states[i], arena, n)
    decreases i
  {
    if i == 0 {
      EmptySum(n);
      assert ThreadBalance(states[0].tlds, arena) == map[] && PageBalance(states[0].slabs, arena) == map[];
    } else {
      var s, m := states[i - 1], moves[i - 1];
      assert CanMove(s, m);
      CoversBefore(s, m, n);
      LedgerRuns(states, moves, i - 1, arena, n);
      EveryRun(states, moves, i - 1);
      EverySafeRun(states, moves, i - 1);
      MoveBalanced(s, m, arena, n);
    }
  }

  lemma {:induction false} EmptySum(n: nat)
    ensures Sum(map[], n) == 0
  {
    if n > 0 { EmptySum(n - 1); }
  }

  lemma CoversBefore(s: Sys, m: Move, n: nat)
    requires CanMove(s, m) && Covers(Moved(s, m), n)
    ensures Covers(s, n)
  {
    GrowsOnly(s, m);
    forall pid | pid in s.slabs ensures pid < n { assert pid in Moved(s, m).slabs; }
  }

  lemma GrowsOnly(s: Sys, m: Move)
    requires CanMove(s, m)
    ensures s.nextTid <= Moved(s, m).nextTid && s.slabs.Keys <= Moved(s, m).slabs.Keys
    ensures |Moved(s, m).arenas| == |s.arenas|
  {
  }

  /** Slots of a page that clients hold, in bytes. */
  function LiveBytes(slabs: map<Pid, Slab>, a: nat): map<nat, int> {
    map pid | pid in slabs && slabs[pid].arena == a :: slabs[pid].size * |slabs[pid].page.live|
  }

  /** In every state of a run that respects H, across thread exits, each arena's allocated minus freed plus the
      unflushed bytes of its attached threads is the recorded worth of its pages; and when no operation is in
      progress that is the total size of the live slots. */
  lemma ArenaBalance(s: Sys, arena: nat, n: nat)
    requires SafelyReachable(s) && arena < |s.arenas| && Covers(s, n)
    ensures Books(s, arena, n) == Sum(PageBalance(s.slabs, arena), n)
    ensures (forall pid | pid in s.slabs :: s.slabs[pid].page.ops == map[]) ==>
      Books(s, arena, n) == Sum(LiveBytes(s.slabs, arena), n)
  {
    var states, moves :| IsSafeRun(states, moves) && states[|moves|] == s;
    ArenasFixed(states, moves, |moves|);
    LedgerRuns(states, moves, |moves|, arena, n);
    if forall pid | pid in s.slabs :: s.slabs[pid].page.ops == map[] {
      forall pid | pid in s.slabs ensures Net(s.slabs[pid].page) == |s.slabs[pid].page.live| {
        assert Unrecorded(s.slabs[pid].page.ops) == {} && Uncredited(s.slabs[pid].page.ops) == {};
      }
      assert PageBalance(s.slabs, arena) == LiveBytes(s.slabs, arena);
    }
  }

  lemma {:induction false} ArenasFixed(states: seq<Sys>, moves: seq<Move>, i: nat)
    requires IsRun(states, moves) && i <= |moves|
    ensures |states[i].arenas| == |states[0].arenas|
    decreases i
  {
    if i > 0 {
      ArenasFixed(states, moves, i - 1);
      assert CanMove(states[i - 1], moves[i - 1]);
      GrowsOnly(states[i - 1], moves[i - 1]);
    }
  }
}
