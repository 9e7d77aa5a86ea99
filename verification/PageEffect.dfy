/** What one step changes on a page, field by field, whatever else is going on. */
module PageEffect {
  import opened Basics
  import opened PageProtocol
  import opened PageSteps

  /** The slot that step `a` hands to a caller. */
  function HandsOut(p: Page, a: Action): Option<nat> {
    if a.Mark? && a.t in p.ops && p.ops[a.t].Counted? then Some(p.ops[a.t].slot) else None
  }

  /** The slot that step `a` takes back from a caller. */
  function TakesBack(p: Page, a: Action): Option<nat> {
    if a.FreeUnchecked? then Some(a.slot)
    else if a.Check? && a.t in p.ops && p.ops[a.t].Checking? then Some(p.ops[a.t].slot)
    else None
  }

  /** The slot whose first word the step writes. */
  function Written(p: Page, a: Action): Option<nat> {
    match a
    case Splice(t) => if t in p.ops && p.ops[t].Splicing? then Some(p.ops[t].tail) else None
    case LocalLink(t) => if t in p.ops && p.ops[t].LocalFree? then Some(p.ops[t].slot) else None
    case RemoteLink(t) => if t in p.ops && p.ops[t].RemoteLoaded? then Some(p.ops[t].slot) else None
    case ClientWrite(k, _) => Some(k)
    case _ => None
  }

  /** Step `a` takes slot `k` out of the virgin region. */
  predicate Bumps(p: Page, a: Action, k: nat) {
    || (a.BumpWrite? && a.t in p.ops && p.ops[a.t] == Bumping(k))
    || (a.SlowWrite? && a.t in p.ops && p.ops[a.t] == SlowBumping(k))
  }

  predicate SlotEffect(p: Page, a: Action, q: Page) {
    && q.cap == p.cap && q.debug == p.debug
    && q.live == (match HandsOut(p, a)
                  case Some(k) => p.live + {k}
                  case None => (match TakesBack(p, a) case Some(k) => p.live - {k} case None => p.live))
    && (match Written(p, a)
        case Some(k) => q.link == Store(p, k, Fetch(q.link, k))
        case None => q.link == p.link)
    && (if a.BumpWrite? || a.SlowWrite? then q.bump > 0 && Bumps(p, a, q.bump - 1) else q.bump == p.bump)
  }

  predicate ThreadEffect(p: Page, a: Action, q: Page) {
    && (if a.ClientWrite? then q.ops == p.ops else q.ops - {a.t} == p.ops - {a.t})
    && q.owner == (if a.Claim? && p.owner.None? then Some(a.t) else p.owner)
    && q.cached == (if a.Claim? && (p.owner.None? || p.owner == Some(a.t)) then p.cached + {a.t}
                    else if a.Drop? || a.Exit? then p.cached - {a.t} else p.cached)
    && q.exited == (if a.Exit? then p.exited + {a.t} else p.exited)
    && q.lock == (if a.SlowTest? then Some(a.t)
                  else if a.SlowStat? || (a.SlowRead? && p.bump >= p.cap) then None else p.lock)
  }

  predicate Effect(p: Page, a: Action, q: Page) {
    SlotEffect(p, a, q) && ThreadEffect(p, a, q)
  }

  lemma AllocEffect(p: Page, a: Action)
    requires Enabled(p, a) && AllocAction(a)
    ensures Effect(p, a, Apply(p, a))
  {
  }

  lemma CollectEffect(p: Page, a: Action)
    requires Enabled(p, a) && CollectAction(a)
    ensures Effect(p, a, Apply(p, a))
  {
  }

  lemma FreeEffect(p: Page, a: Action)
    requires Enabled(p, a) && FreeAction(a)
    ensures Effect(p, a, Apply(p, a))
  {
  }

  lemma LinkEffect(p: Page, a: Action)
    requires Enabled(p, a) && LinkAction(a)
    ensures Effect(p, a, Apply(p, a))
  {
  }

  lemma PushEffect(p: Page, a: Action)
    requires Enabled(p, a) && PushAction(a)
    ensures Effect(p, a, Apply(p, a))
  {
  }

  /** Every step changes exactly this. */
  lemma StepEffect(p: Page, a: Action)
    requires Enabled(p, a)
    ensures Effect(p, a, Apply(p, a))
  {
    if AllocAction(a) { AllocEffect(p, a); }
    else if CollectAction(a) { CollectEffect(p, a); }
    else if FreeAction(a) { FreeEffect(p, a); }
    else if LinkAction(a) { LinkEffect(p, a); }
    else if PushAction(a) { PushEffect(p, a); }
  }
}
