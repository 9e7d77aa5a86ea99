/** What the rest of the allocator sees of a page step. */
module PageIface {
  import opened Basics
  import opened PageProtocol
  import opened PageInvariant
  import opened PageSteps
  import opened PageOwner

  /** Steps with which a thread enters an operation on the page. */
  predicate Begins(a: Action) {
    a.FastTry? || a.SlowTest? || a.FreeCall? || a.FreeUnchecked?
  }

  /** How a step of a thread other than its exit changes what is visible outside the page. */
  predicate Iface(p: Page, a: Action, q: Page)
    requires !a.ClientWrite?
  {
    var t := a.t;
    && q.exited == p.exited
    && q.ops - {t} == p.ops - {t}
    && (if Begins(a) then t !in p.ops else t in p.ops)
    && (t in q.ops && SlowPc(q.ops[t]) ==> (t in p.ops && SlowPc(p.ops[t])) || a.SlowTest?)
    && q.owner == (if a.Claim? && p.owner.None? then Some(t) else p.owner)
    && q.cached == (if a.Claim? && p.owner.None? then p.cached + {t} else if a.Drop? then p.cached - {t} else p.cached)
    && (q.lock == p.lock || q.lock == None || a.SlowTest?)
    && (a.SlowTest? ==> q.lock == Some(t))
    && (q.lock == Some(t) ==> t in q.ops)
    && (a.SlowStat? ==> p.lock == Some(t) && q.lock == None && t in p.ops && SlowPc(p.ops[t]))
    && (a.Claim? ==> p.owner != Some(t) && t in p.ops && SlowPc(p.ops[t]) && t !in q.ops)
    && (a.Drop? ==> p.owner == Some(t) && t in p.cached && t !in q.ops)
    && (a.FastStat? || (a.StatFree? && t in p.ops && p.ops[t] == FreeStat(true)) ==> p.owner == Some(t))
    && (t in p.ops && !(t in q.ops && SlowPc(q.ops[t])) && SlowPc(p.ops[t]) ==>
          a.Claim? || a.SkipClaim? || (a.SlowRead? && q.lock == None))
  }

  /** What the step's thread knows. */
  predicate Facts(p: Page, t: Tid) {
    if t !in p.ops then p.lock != Some(t) else
      && (OwnerPc(p.ops[t]) ==> p.owner == Some(t))
      && (SlowPc(p.ops[t]) ==> p.owner != Some(t))
      && (Locked(p.ops[t]) <==> p.lock == Some(t))
      && (p.ops[t].Dropping? ==> t in p.cached)
  }

  lemma AllocIface(p: Page, a: Action)
    requires Enabled(p, a) && AllocAction(a) && Facts(p, a.t)
    ensures Iface(p, a, Apply(p, a))
  {
  }

  lemma CollectIface(p: Page, a: Action)
    requires Enabled(p, a) && CollectAction(a) && Facts(p, a.t)
    ensures Iface(p, a, Apply(p, a))
  {
  }

  lemma FreeIface(p: Page, a: Action)
    requires Enabled(p, a) && FreeAction(a) && Facts(p, a.t)
    ensures Iface(p, a, Apply(p, a))
  {
  }

  lemma LinkIface(p: Page, a: Action)
    requires Enabled(p, a) && LinkAction(a) && Facts(p, a.t)
    ensures Iface(p, a, Apply(p, a))
  {
  }

  lemma PushIface(p: Page, a: Action)
    requires Enabled(p, a) && PushAction(a) && Facts(p, a.t)
    ensures Iface(p, a, Apply(p, a))
  {
  }

  /** Every step, with or without H. */
  lemma StepIface(p: Page, a: Action)
    requires OwnInv(p) && Enabled(p, a) && !a.Exit? && !a.ClientWrite?
    ensures Iface(p, a, Apply(p, a))
  {
    if a.t in p.ops { assert OwnAt(p, a.t); }
    if AllocAction(a) { AllocIface(p, a); }
    else if CollectAction(a) { CollectIface(p, a); }
    else if LinkAction(a) { LinkIface(p, a); }
    else if PushAction(a) { PushIface(p, a); }
    else { FreeIface(p, a); }
  }
}
