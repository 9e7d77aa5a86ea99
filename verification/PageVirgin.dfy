/** Virgin memory in runs of any number of threads: nobody writes the first word of a slot before it is handed
    out for the first time. */
module PageVirgin {
  import opened Basics
  import opened PageProtocol
  import opened PageInvariant
  import opened PageEffect
  import opened PageRuns

  /** What is written is live, held by the writer, or being collected. */
  lemma WrittenPlace(p: Page, v: View, a: Action, k: nat)
    requires Inv(p, v) && Ok(p, a) && Written(p, a) == Some(k)
    ensures k < |v.place|
    ensures
      || v.place[k] == Live || v.place[k] == Collected
      || (!a.ClientWrite? && v.place[k] == Held(a.t) && !Has(p, a.t, k))
  {
    if !a.ClientWrite? { assert ThreadOk(p, v, a.t); }
    if a.Splice? { assert p.ops[a.t].tail in v.coll; }
    assert SlotOk(p, v, k);
  }

  lemma BumpIsNext(p: Page, v: View, a: Action, k: nat)
    requires Inv(p, v) && Bumps(p, a, k)
    ensures k == p.bump < p.cap
  {
    assert ThreadOk(p, v, a.t);
  }

  /** A step writes the first word of no slot that is virgin afterwards. */
  lemma VirginKept(p: Page, v: View, a: Action, q: Page, k: nat)
    requires Inv(p, v) && Ok(p, a) && Effect(p, a, q) && q.bump <= k < q.cap
    ensures p.bump <= k && Fetch(q.link, k) == Fetch(p.link, k)
  {
    if a.BumpWrite? || a.SlowWrite? { BumpIsNext(p, v, a, q.bump - 1); }
    NotWritten(p, v, a, k);
  }

  lemma NotWritten(p: Page, v: View, a: Action, k: nat)
    requires Inv(p, v) && Ok(p, a) && p.bump <= k < p.cap
    ensures Written(p, a) != Some(k)
  {
    assert SlotOk(p, v, k);
    if Written(p, a) == Some(k) { WrittenPlace(p, v, a, k); }
  }

  /** In every run the first word of a virgin slot is the one the page started with. */
  lemma {:induction false} VirginWords(pages: seq<Page>, acts: seq<Action>, n: nat, k: nat)
    requires IsRun(pages, acts) && n <= |acts| && pages[n].bump <= k < pages[n].cap
    ensures Fetch(pages[n].link, k) == Fetch(pages[0].link, k)
    decreases n
  {
    if n > 0 {
      var p, a := pages[n - 1], acts[n - 1];
      StepEffect(p, a);
      EveryRun(pages, acts, n - 1);
      var v :| Inv(p, v);
      VirginKept(p, v, a, pages[n], k);
      VirginWords(pages, acts, n - 1, k);
    }
  }

  // ---- from the bump to the hand-out ----

  /** Thread `t` has slot `k` and has not handed it out. */
  predicate Has(p: Page, t: Tid, k: nat) {
    t in p.ops && (p.ops[t].Got? || p.ops[t].Counted?) && p.ops[t].slot == k
  }

  /** The steps open to a thread that has a slot. */
  lemma HasSteps(p: Page, a: Action, k: nat)
    requires Enabled(p, a) && !a.ClientWrite? && Has(p, a.t, k)
    ensures a.CountUsed? || a.Mark? || a.Abort?
  {
  }

  lemma HasNext(p: Page, a: Action, k: nat)
    requires Enabled(p, a) && (a.CountUsed? || a.Abort?) && Has(p, a.t, k)
    ensures Has(Apply(p, a), a.t, k)
  {
    assert Apply(p, a) == if a.CountUsed? then DoCountUsed(p, a.t) else DoAbort(p, a.t);
  }

  lemma OthersStay(p: Page, a: Action, q: Page, t: Tid)
    requires ThreadEffect(p, a, q) && t in p.ops && (a.ClientWrite? || a.t != t)
    ensures t in q.ops && q.ops[t] == p.ops[t]
  {
    if !a.ClientWrite? { assert t in p.ops - {a.t} && (p.ops - {a.t})[t] == p.ops[t]; }
  }

  /** A thread keeps its slot until it hands it out. */
  lemma HasStays(p: Page, a: Action, t: Tid, k: nat)
    requires Enabled(p, a) && Effect(p, a, Apply(p, a)) && Has(p, t, k) && a != Mark(t)
    ensures Has(Apply(p, a), t, k)
  {
    if !a.ClientWrite? && a.t == t {
      HasSteps(p, a, k);
      HasNext(p, a, k);
    } else {
      OthersStay(p, a, Apply(p, a), t);
    }
  }

  lemma HeldNotWritten(p: Page, v: View, a: Action, t: Tid, k: nat)
    requires Inv(p, v) && Ok(p, a) && Has(p, t, k)
    ensures Written(p, a) != Some(k)
  {
    assert ThreadOk(p, v, t);
    if Written(p, a) == Some(k) { WrittenPlace(p, v, a, k); }
  }

  lemma BumpTakes(p: Page, a: Action, k: nat)
    requires Enabled(p, a) && Bumps(p, a, k)
    ensures Has(Apply(p, a), a.t, k) && Apply(p, a).link == p.link
  {
    assert Apply(p, a) == if a.BumpWrite? then DoBumpWrite(p, a.t) else DoSlowWrite(p, a.t);
  }

  /** In every run a slot taken out of the virgin region still carries that word when it is handed out: its
      thread keeps it until then, and nobody writes it. */
  lemma {:induction false} BumpedWords(pages: seq<Page>, acts: seq<Action>, m: nat, n: nat, k: nat)
    requires IsRun(pages, acts) && m < n <= |acts| && Bumps(pages[m], acts[m], k)
    requires forall i | m < i < n :: acts[i] != Mark(acts[m].t)
    ensures Has(pages[n], acts[m].t, k) && Fetch(pages[n].link, k) == Fetch(pages[0].link, k)
    decreases n
  {
    var p, a := pages[n - 1], acts[n - 1];
    EveryRun(pages, acts, n - 1);
    var v :| Inv(p, v);
    if m == n - 1 {
      BumpIsNext(p, v, a, k);
      VirginWords(pages, acts, m, k);
      BumpTakes(p, a, k);
    } else {
      BumpedWords(pages, acts, m, n - 1, k);
      StepEffect(p, a);
      HasStays(p, a, acts[m].t, k);
      HeldNotWritten(p, v, a, acts[m].t, k);
    }
  }

  // ---- all bytes of a slot ----

  /** What the slots of a page hold, byte by byte. */
  type Contents = nat -> seq<bv8>

  /** Only the slot that is written may change. */
  ghost predicate ChangesAt(mem: Contents, mem': Contents, written: Option<nat>) {
    forall k: nat | written != Some(k) :: mem'(k) == mem(k)
  }

  /** A run with the contents of all slots: a step changes nothing but the slot it writes to. */
  ghost predicate Traced(pages: seq<Page>, acts: seq<Action>, mem: seq<Contents>) {
    && IsRun(pages, acts) && |mem| == |pages|
    && forall i {:trigger acts[i]} | 0 <= i < |acts| :: ChangesAt(mem[i], mem[i + 1], Written(pages[i], acts[i]))
  }

  /** In every run a virgin slot holds, in all its bytes, what the page started with. */
  lemma {:induction false} VirginBytes(pages: seq<Page>, acts: seq<Action>, mem: seq<Contents>, n: nat, k: nat)
    requires Traced(pages, acts, mem) && n <= |acts| && pages[n].bump <= k < pages[n].cap
    ensures mem[n](k) == mem[0](k)
    decreases n
  {
    if n > 0 {
      var p, a := pages[n - 1], acts[n - 1];
      StepEffect(p, a);
      EveryRun(pages, acts, n - 1);
      var v :| Inv(p, v);
      VirginKept(p, v, a, pages[n], k);
      NotWritten(p, v, a, k);
      VirginBytes(pages, acts, mem, n - 1, k);
    }
  }

  /** And so does a slot taken out of the virgin region, until it is handed out. */
  lemma {:induction false} BumpedBytes(pages: seq<Page>, acts: seq<Action>, mem: seq<Contents>, m: nat, n: nat, k: nat)
    requires Traced(pages, acts, mem) && m < n <= |acts| && Bumps(pages[m], acts[m], k)
    requires forall i | m < i < n :: acts[i] != Mark(acts[m].t)
    ensures Has(pages[n], acts[m].t, k) && mem[n](k) == mem[0](k)
    decreases n
  {
    BumpedWords(pages, acts, m, n, k);
    EveryRun(pages, acts, n - 1);
    assert ChangesAt(mem[n - 1], mem[n], Written(pages[n - 1], acts[n - 1]));
    if m == n - 1 {
      BumpsUnwritten(pages[m], acts[m], k);
      VirginBytes(pages, acts, mem, m, k);
    } else {
      BumpedBytes(pages, acts, mem, m, n - 1, k);
      HeldUnwritten(pages[n - 1], acts[n - 1], acts[m].t, k);
    }
  }

  lemma BumpsUnwritten(p: Page, a: Action, k: nat)
    requires PageInv(p) && Bumps(p, a, k)
    ensures p.bump <= k < p.cap && Written(p, a) != Some(k)
  {
    var v :| Inv(p, v);
    BumpIsNext(p, v, a, k);
  }

  lemma HeldUnwritten(p: Page, a: Action, t: Tid, k: nat)
    requires PageInv(p) && Ok(p, a) && Has(p, t, k)
    ensures Written(p, a) != Some(k)
  {
    var v :| Inv(p, v);
    HeldNotWritten(p, v, a, t, k);
  }

  // ---- along any continuation of a reachable state ----

  lemma VirginStep(p: Page, a: Action, k: nat)
    requires Reachable(p) && Ok(p, a) && Apply(p, a).bump <= k < Apply(p, a).cap
    ensures p.bump <= k < p.cap && Fetch(Apply(p, a).link, k) == Fetch(p.link, k) && Written(p, a) != Some(k)
  {
    ReachableInv(p);
    var v :| Inv(p, v);
    StepEffect(p, a);
    VirginKept(p, v, a, Apply(p, a), k);
    NotWritten(p, v, a, k);
  }

  /** No step of the run writes to slot `k`. */
  predicate NeverWrites(p: Page, run: seq<Action>, k: nat) {
    run == [] ||
    var q := Exec(p, run[..|run| - 1]);
    NeverWrites(p, run[..|run| - 1], k) && (q.Some? ==> Written(q.value, run[|run| - 1]) != Some(k))
  }

  /** What is virgin at the end was virgin, and was not written. */
  lemma {:induction false} VirginAlong(p: Page, run: seq<Action>, k: nat)
    requires Reachable(p) && Exec(p, run).Some?
    requires Exec(p, run).value.bump <= k < Exec(p, run).value.cap
    ensures p.bump <= k < p.cap && Fetch(Exec(p, run).value.link, k) == Fetch(p.link, k) && NeverWrites(p, run, k)
    decreases |run|
  {
    if run != [] {
      var prefix := run[..|run| - 1];
      HandoutBalance(p, prefix, k);
      VirginStep(Exec(p, prefix).value, run[|run| - 1], k);
      VirginAlong(p, prefix, k);
    }
  }
}
