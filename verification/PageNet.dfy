/** How many slots of a page the statistics have to account for. */
module PageNet {
  import opened Basics
  import opened PageProtocol
  import opened PageInvariant
  import opened PageSteps
  import opened PageEffect
  import opened PageRuns

  /** A free whose bytes are not yet credited. */
  predicate FreePc(pc: PC) {
    || pc.Freeing? || pc.LocalFree? || pc.LocalLinked? || pc.LocalPushed? || pc.RemoteFree? || pc.RemoteLoaded?
    || pc.RemoteLinked? || pc.RemotePushed? || pc.RemoteCounted? || pc.FreeStat?
  }

  function Unrecorded(ops: map<Tid, PC>): set<Tid> { set t | t in ops && ops[t].Marked? }

  function Uncredited(ops: map<Tid, PC>): set<Tid> { set t | t in ops && FreePc(ops[t]) }

  /** Live slots, without those whose allocation is not yet recorded, with those whose free is not yet
      credited: the slots the statistics count as allocated. */
  function Net(p: Page): int { |p.live| - |Unrecorded(p.ops)| + |Uncredited(p.ops)| }

  /** Thread `t`'s share of the correction. */
  function Share(p: Page, t: Tid): int {
    Bit(t in p.ops && FreePc(p.ops[t])) - Bit(t in p.ops && p.ops[t].Marked?)
  }

  /** The change of `Net` that a step records. */
  function Recorded(a: Action): int {
    if a.FastStat? || a.SlowStat? then 1 else if a.StatFree? then -1 else 0
  }

  lemma NetWithout(ops: map<Tid, PC>, t: Tid)
    ensures |Unrecorded(ops)| == |Unrecorded(ops - {t})| + Bit(t in ops && ops[t].Marked?)
    ensures |Uncredited(ops)| == |Uncredited(ops - {t})| + Bit(t in ops && FreePc(ops[t]))
  {
    var m := ops - {t};
    if t in ops && ops[t].Marked? {
      assert Unrecorded(ops) == Unrecorded(m) + {t};
    } else {
      assert Unrecorded(ops) == Unrecorded(m);
    }
    if t in ops && FreePc(ops[t]) {
      assert Uncredited(ops) == Uncredited(m) + {t};
    } else {
      assert Uncredited(ops) == Uncredited(m);
    }
  }

  /** The change of the number of live slots. */
  function LiveChange(a: Action): int {
    if a.Mark? then 1 else if a.Check? || a.FreeUnchecked? then -1 else 0
  }

  lemma LiveCount(p: Page, a: Action)
    requires Ok(p, a)
    requires HandsOut(p, a).Some? ==> HandsOut(p, a).value !in p.live
    requires TakesBack(p, a).Some? ==> TakesBack(p, a).value in p.live
    ensures |Apply(p, a).live| == |p.live| + LiveChange(a)
  {
    StepEffect(p, a);
  }

  predicate EndsAlloc(a: Action) { a.CountUsed? || a.Mark? || a.FastStat? || a.SlowStat? || a.SkipClaim? || a.Claim? }

  lemma AllocShare(p: Page, a: Action)
    requires Ok(p, a) && AllocAction(a) && !EndsAlloc(a)
    ensures Share(Apply(p, a), a.t) == Share(p, a.t) + Recorded(a) - LiveChange(a)
  {
  }

  lemma EndShare(p: Page, a: Action)
    requires Ok(p, a) && EndsAlloc(a)
    ensures Share(Apply(p, a), a.t) == Share(p, a.t) + Recorded(a) - LiveChange(a)
  {
  }

  lemma CollectShare(p: Page, a: Action)
    requires Ok(p, a) && CollectAction(a)
    ensures Share(Apply(p, a), a.t) == Share(p, a.t) + Recorded(a) - LiveChange(a)
  {
  }

  lemma FreeShare(p: Page, a: Action)
    requires Ok(p, a) && (FreeAction(a) || a.Exit?)
    ensures Share(Apply(p, a), a.t) == Share(p, a.t) + Recorded(a) - LiveChange(a)
  {
  }

  lemma LinkShare(p: Page, a: Action)
    requires Ok(p, a) && LinkAction(a)
    ensures Share(Apply(p, a), a.t) == Share(p, a.t) + Recorded(a) - LiveChange(a)
  {
  }

  lemma PushShare(p: Page, a: Action)
    requires Ok(p, a) && PushAction(a)
    ensures Share(Apply(p, a), a.t) == Share(p, a.t) + Recorded(a) - LiveChange(a)
  {
  }

  lemma NetFrom(p: Page, a: Action, q: Page)
    requires ThreadEffect(p, a, q) && |q.live| == |p.live| + LiveChange(a)
    requires !a.ClientWrite? ==> Share(q, a.t) == Share(p, a.t) + Recorded(a) - LiveChange(a)
    ensures Net(q) == Net(p) + Recorded(a)
  {
    if !a.ClientWrite? {
      NetWithout(p.ops, a.t);
      NetWithout(q.ops, a.t);
    }
  }

  lemma StepShare(p: Page, a: Action)
    requires Ok(p, a) && !a.ClientWrite?
    ensures Share(Apply(p, a), a.t) == Share(p, a.t) + Recorded(a) - LiveChange(a)
  {
    if EndsAlloc(a) { EndShare(p, a); }
    else if AllocAction(a) { AllocShare(p, a); }
    else if CollectAction(a) { CollectShare(p, a); }
    else if LinkAction(a) { LinkShare(p, a); }
    else if PushAction(a) { PushShare(p, a); }
    else { FreeShare(p, a); }
  }

  /** `Net` changes exactly when statistics are recorded. */
  lemma NetStep(p: Page, v: View, a: Action)
    requires Inv(p, v) && Ok(p, a)
    ensures Net(Apply(p, a)) == Net(p) + Recorded(a)
  {
    StepFacts(p, v, a);
    LiveCount(p, a);
    StepEffect(p, a);
    if !a.ClientWrite? { StepShare(p, a); }
    NetFrom(p, a, Apply(p, a));
  }
}
