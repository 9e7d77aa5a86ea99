/** The runs of the whole slab allocator, seen from one page: they are runs of that page, so what holds of every
    run of a page holds of every page of the allocator. */
module SlabsPages {
  import opened Basics
  import opened PageProtocol
  import opened PageInvariant
  import opened PageSteps
  import opened PageEffect
  import opened PageRuns
  import opened PageLaws
  import opened PageVirgin
  import opened Slabs
  import opened SlabsProof
  import SlabsRuns

  /** What a move does to page `pid`. */
  function StepOf(m: Move, pid: Pid): seq<Action> {
    match m
    case Act(i, a) => if i == pid then [a] else []
    case ThreadExit(t) => [Exit(t)]
    case _ => []
  }

  /** What a sequence of moves does to page `pid`. */
  function Acts(moves: seq<Move>, pid: Pid): seq<Action> {
    if moves == [] then [] else Acts(moves[..|moves| - 1], pid) + StepOf(moves[|moves| - 1], pid)
  }

  function PageOf(s: Sys, pid: Pid): Page
    requires pid in s.slabs
  {
    s.slabs[pid].page
  }

  /** An aborted page stays aborted. */
  lemma AbortStays(s: Sys, m: Move, pid: Pid)
    requires CanMove(s, m) && pid in s.slabs
    ensures pid in Moved(s, m).slabs && (PageOf(s, pid).aborted ==> PageOf(Moved(s, m), pid).aborted)
  {
  }

  /** A move acts on a page by one of the page's own steps, or not at all. */
  lemma StepIs(s: Sys, m: Move, pid: Pid)
    requires SysOk(s) && CanMove(s, m) && Safe(s, m) && pid in s.slabs && !PageOf(s, pid).aborted
    ensures pid in Moved(s, m).slabs
    ensures var p, step := PageOf(s, pid), StepOf(m, pid);
            if step == [] then PageOf(Moved(s, m), pid) == p
            else Ok(p, step[0]) && PageOf(Moved(s, m), pid) == Apply(p, step[0])
  {
    AbortStays(s, m, pid);
    if m.ThreadExit? { ExitIs(s, m.t, pid); }
  }

  lemma ExitIs(s: Sys, t: Tid, pid: Pid)
    requires SysOk(s) && CanMove(s, ThreadExit(t)) && pid in s.slabs && !PageOf(s, pid).aborted
    ensures Ok(PageOf(s, pid), Exit(t)) && PageOf(DoThreadExit(s, t), pid) == Apply(PageOf(s, pid), Exit(t))
  {
    assert SlabOk(s, pid) && TldOk(s, t);
  }

  lemma ExecOne(p: Page, run: seq<Action>, step: seq<Action>)
    requires |step| <= 1 && Exec(p, run).Some? && (step != [] ==> Ok(Exec(p, run).value, step[0]))
    ensures Exec(p, run + step) == Some(if step == [] then Exec(p, run).value else Apply(Exec(p, run).value, step[0]))
  {
    if step == [] { assert run + step == run; } else { assert (run + step)[..|run|] == run; }
  }

  /** The moves from one state of a run to a later one are a run of each page. */
  lemma {:induction false} PageTrace(states: seq<Sys>, moves: seq<Move>, pid: Pid, m: nat, n: nat)
    requires SlabsRuns.IsSafeRun(states, moves) && m <= n <= |moves|
    requires pid in states[m].slabs && (pid in states[n].slabs ==> !PageOf(states[n], pid).aborted)
    ensures pid in states[n].slabs && !PageOf(states[m], pid).aborted
    ensures Exec(PageOf(states[m], pid), Acts(moves[m..n], pid)) == Some(PageOf(states[n], pid))
    decreases n
  {
    if m < n {
      var s, a := states[n - 1], moves[n - 1];
      assert CanMove(s, a) && Safe(s, a);
      StaysIn(states, moves, pid, m, n - 1);
      AbortStays(s, a, pid);
      PageTrace(states, moves, pid, m, n - 1);
      SlabsRuns.EveryRun(states, moves, n - 1);
      ActsMore(moves, pid, m, n);
      TraceStep(s, a, pid, PageOf(states[m], pid), Acts(moves[m..n - 1], pid));
    }
  }

  lemma ActsMore(moves: seq<Move>, pid: Pid, m: nat, n: nat)
    requires m < n <= |moves|
    ensures Acts(moves[m..n], pid) == Acts(moves[m..n - 1], pid) + StepOf(moves[n - 1], pid)
  {
    assert moves[m..n][..n - m - 1] == moves[m..n - 1];
  }

  lemma TraceStep(s: Sys, m: Move, pid: Pid, p: Page, run: seq<Action>)
    requires SysOk(s) && CanMove(s, m) && Safe(s, m) && pid in s.slabs && !PageOf(s, pid).aborted
    requires Exec(p, run) == Some(PageOf(s, pid))
    ensures pid in Moved(s, m).slabs && Exec(p, run + StepOf(m, pid)) == Some(PageOf(Moved(s, m), pid))
  {
    StepIs(s, m, pid);
    ExecOne(p, run, StepOf(m, pid));
  }

  lemma {:induction false} StaysIn(states: seq<Sys>, moves: seq<Move>, pid: Pid, m: nat, n: nat)
    requires SlabsRuns.IsSafeRun(states, moves) && m <= n <= |moves| && pid in states[m].slabs
    ensures pid in states[n].slabs
    decreases n
  {
    if m < n {
      StaysIn(states, moves, pid, m, n - 1);
      assert CanMove(states[n - 1], moves[n - 1]);
      SlabsRuns.GrowsOnly(states[n - 1], moves[n - 1]);
    }
  }

  lemma FreshReachable(p: Page)
    requires Initial(p)
    ensures Reachable(p)
  {
    assert IsRun([p], []);
  }

  /** Every page of every run that respects H is in a state that runs of a page lead to, unless it was aborted. */
  lemma {:induction false} PageReachable(states: seq<Sys>, moves: seq<Move>, pid: Pid, n: nat)
    requires SlabsRuns.IsSafeRun(states, moves) && n <= |moves| && pid in states[n].slabs
    requires !PageOf(states[n], pid).aborted
    ensures Reachable(PageOf(states[n], pid))
    decreases n
  {
    if n > 0 {
      var s, m := states[n - 1], moves[n - 1];
      assert CanMove(s, m) && Safe(s, m);
      SlabsRuns.EveryRun(states, moves, n - 1);
      if pid in s.slabs {
        AbortStays(s, m, pid);
        PageReachable(states, moves, pid, n - 1);
        StepIs(s, m, pid);
        if StepOf(m, pid) != [] { ReachableStep(PageOf(s, pid), StepOf(m, pid)[0]); }
      } else {
        NewReachable(s, m, pid);
      }
    }
  }

  lemma NewReachable(s: Sys, m: Move, pid: Pid)
    requires SysOk(s) && CanMove(s, m) && pid !in s.slabs && pid in Moved(s, m).slabs
    ensures Reachable(PageOf(Moved(s, m), pid)) && PageOf(Moved(s, m), pid).bump == 0
  {
    FreshInitial(s, m.t, m.debug, m.link);
    FreshReachable(PageOf(Moved(s, m), pid));
  }

  lemma SafelyIsReachable(s: Sys, pid: Pid)
    requires SlabsRuns.SafelyReachable(s) && pid in s.slabs && !PageOf(s, pid).aborted
    ensures Reachable(PageOf(s, pid))
  {
    var states, moves :| SlabsRuns.IsSafeRun(states, moves) && states[|moves|] == s;
    PageReachable(states, moves, pid, |moves|);
  }

  // ---- the page theorems for the whole allocator ----

  /** Counters, fullness and the bitmap, in every state. */
  lemma EveryPageCounts(s: Sys, pid: Pid, t: Tid, k: nat)
    requires SlabsRuns.SafelyReachable(s) && pid in s.slabs && !PageOf(s, pid).aborted
    ensures var p := PageOf(s, pid);
            && (exists local, remote, coll :: CountsAs(p, local, remote, coll))
            && (p.debug ==> p.bitmap == p.live)
            && (t in p.ops && p.ops[t].Collecting? && p.head.ptr.Null? && k < p.cap ==>
                  k in p.live || exists u :: HeldBy(p, u) == Some(k))
  {
    var p := PageOf(s, pid);
    SafelyIsReachable(s, pid);
    CountersInFlight(p);
    if p.debug { BitmapExact(p, t); }
    if t in p.ops && p.ops[t].Collecting? && p.head.ptr.Null? && k < p.cap {
      assert Apply(p, CollectLoad(t)) == DoCollectLoad(p, t);
      FullAtDrop(p, t, k);
    }
  }

  /** Between any two states of a run, hand-outs minus returns of a slot are the change of its being live. */
  lemma EveryHandout(states: seq<Sys>, moves: seq<Move>, pid: Pid, m: nat, n: nat, k: nat)
    requires SlabsRuns.IsSafeRun(states, moves) && m <= n <= |moves|
    requires pid in states[m].slabs && pid in states[n].slabs && !PageOf(states[n], pid).aborted
    ensures var p, acts := PageOf(states[m], pid), Acts(moves[m..n], pid);
            Given(p, acts, k) - Taken(p, acts, k) == Bit(k in PageOf(states[n], pid).live) - Bit(k in p.live)
  {
    PageTrace(states, moves, pid, m, n);
    PageReachable(states, moves, pid, m);
    HandoutBalance(PageOf(states[m], pid), Acts(moves[m..n], pid), k);
  }

  /** No later move allocates from a retired page. */
  lemma EveryRetired(states: seq<Sys>, moves: seq<Move>, pid: Pid, m: nat, n: nat)
    requires SlabsRuns.IsSafeRun(states, moves) && m <= n <= |moves|
    requires pid in states[m].slabs && Retired(PageOf(states[m], pid))
    requires pid in states[n].slabs && !PageOf(states[n], pid).aborted
    ensures Retired(PageOf(states[n], pid)) && forall a | a in Acts(moves[m..n], pid) :: !Allocates(a)
  {
    PageTrace(states, moves, pid, m, n);
    PageReachable(states, moves, pid, m);
    RetiredForever(PageOf(states[m], pid), Acts(moves[m..n], pid));
  }

  /** A slot that is virgin was so before, and no move in between wrote to it. */
  lemma EveryVirgin(states: seq<Sys>, moves: seq<Move>, pid: Pid, m: nat, n: nat, k: nat)
    requires SlabsRuns.IsSafeRun(states, moves) && m <= n <= |moves|
    requires pid in states[m].slabs && pid in states[n].slabs && !PageOf(states[n], pid).aborted
    requires PageOf(states[n], pid).bump <= k < PageOf(states[n], pid).cap
    ensures PageOf(states[m], pid).bump <= k
    ensures Fetch(PageOf(states[n], pid).link, k) == Fetch(PageOf(states[m], pid).link, k)
    ensures NeverWrites(PageOf(states[m], pid), Acts(moves[m..n], pid), k)
  {
    PageTrace(states, moves, pid, m, n);
    PageReachable(states, moves, pid, m);
    VirginAlong(PageOf(states[m], pid), Acts(moves[m..n], pid), k);
  }

  // ---- legal clients ----

  /** Every free is of a live slot that nobody else is freeing. */
  ghost predicate Legal(states: seq<Sys>, moves: seq<Move>)
    requires |states| == |moves| + 1
  {
    forall i {:trigger moves[i]} | 0 <= i < |moves| && moves[i].Act? && moves[i].pid in states[i].slabs ::
      LegalCall(PageOf(states[i], moves[i].pid), moves[i].a)
  }

  /** Then no page is ever aborted. */
  lemma {:induction false} LegalSurvives(states: seq<Sys>, moves: seq<Move>, pid: Pid, n: nat)
    requires SlabsRuns.IsSafeRun(states, moves) && Legal(states, moves) && n <= |moves| && pid in states[n].slabs
    ensures !PageOf(states[n], pid).aborted && LegalPending(PageOf(states[n], pid))
    decreases n
  {
    if n > 0 {
      var s, m := states[n - 1], moves[n - 1];
      assert CanMove(s, m) && Safe(s, m);
      SlabsRuns.EveryRun(states, moves, n - 1);
      if pid in s.slabs {
        LegalSurvives(states, moves, pid, n - 1);
        PageReachable(states, moves, pid, n - 1);
        StepIs(s, m, pid);
        if StepOf(m, pid) != [] { LegalStepOn(PageOf(s, pid), StepOf(m, pid)[0]); }
      } else {
        FreshLegal(s, m, pid);
      }
    }
  }

  lemma LegalStepOn(p: Page, a: Action)
    requires Reachable(p) && LegalPending(p) && Ok(p, a) && LegalCall(p, a)
    ensures !Apply(p, a).aborted && LegalPending(Apply(p, a))
  {
    LegalStep(p, a);
    AbortsOnly(p, a);
  }

  lemma AbortsOnly(p: Page, a: Action)
    requires Enabled(p, a) && !a.Abort?
    ensures !Apply(p, a).aborted
  {
    if AllocAction(a) { AllocsGoOn(p, a); } else if CollectAction(a) { CollectsGoOn(p, a); } else { OthersGoOn(p, a); }
  }

  lemma AllocsGoOn(p: Page, a: Action)
    requires Enabled(p, a) && AllocAction(a)
    ensures !Apply(p, a).aborted
  {
  }

  lemma CollectsGoOn(p: Page, a: Action)
    requires Enabled(p, a) && CollectAction(a)
    ensures !Apply(p, a).aborted
  {
  }

  lemma OthersGoOn(p: Page, a: Action)
    requires Enabled(p, a) && !a.Abort? && !AllocAction(a) && !CollectAction(a)
    ensures !Apply(p, a).aborted
  {
  }

  lemma FreshLegal(s: Sys, m: Move, pid: Pid)
    requires CanMove(s, m) && pid !in s.slabs && pid in Moved(s, m).slabs
    ensures !PageOf(Moved(s, m), pid).aborted && LegalPending(PageOf(Moved(s, m), pid))
  {
  }
}
