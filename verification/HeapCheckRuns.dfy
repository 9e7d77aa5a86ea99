/** debug_heap_check on the whole allocator: between operations it finds nothing to report. */
module HeapCheckRuns {
  import opened PageProtocol
  import opened PageInvariant
  import opened PageRuns
  import opened Slabs
  import opened SlabsProof
  import SlabsRuns
  import opened HeapCheck

  /** The metadata is that of page `pid`, built with the bitmap. */
  ghost predicate IsPage(s: Sys, pid: Pid, m: Meta, mem: Words) {
    pid in s.slabs && s.slabs[pid].page.debug && Represents(m, mem, s.slabs[pid].page)
  }

  /** Segments by arena, as the check walks them: every page in use is a page of the system. */
  ghost predicate Shows(arenas: seq<seq<seq<Meta>>>, mem: Words, s: Sys) {
    forall a, g, i | 0 <= a < |arenas| && 0 <= g < |arenas[a]| && 1 <= i < |arenas[a][g]| && arenas[a][g][i].inUse ::
      exists pid :: IsPage(s, pid, arenas[a][g][i], mem)
  }

  /** No thread is inside an operation on any page. */
  ghost predicate Resting(s: Sys) {
    forall pid | pid in s.slabs :: s.slabs[pid].page.ops == map[]
  }

  lemma PagePasses(s: Sys, m: Meta, mem: Words)
    requires PagesOk(s) && Resting(s) && exists pid :: IsPage(s, pid, m, mem)
    ensures Plausible(m) && PageOk(m, mem)
  {
    var pid :| IsPage(s, pid, m, mem);
    InvPasses(m, mem, s.slabs[pid].page);
  }

  /** In every resting state of every run that respects H, the check of all arenas answers true. */
  method CheckPasses(arenas: seq<seq<seq<Meta>>>, mem: Words, ghost s: Sys) returns (ok: bool)
    requires SlabsRuns.SafelyReachable(s) && Resting(s) && Shows(arenas, mem, s)
    ensures ok
  {
    SlabsRuns.SafeOk(s);
    forall a, g, i | 0 <= a < |arenas| && 0 <= g < |arenas[a]| && 1 <= i < |arenas[a][g]| && arenas[a][g][i].inUse
      ensures Plausible(arenas[a][g][i]) && PageOk(arenas[a][g][i], mem)
    {
      PagePasses(s, arenas[a][g][i], mem);
    }
    ok := HeapCheck.Check(arenas, mem);
  }
}
