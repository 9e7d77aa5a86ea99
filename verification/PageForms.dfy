/** Whole operations on a page in closed form. */
module PageForms {
  import opened Basics
  import opened PageProtocol

  /** Slot `k` goes to the client. */
  function Handed(p: Page, k: nat): Page {
    p.(used := Add16(p.used, 1), live := p.live + {k}, bitmap := if p.debug then p.bitmap + {k} else p.bitmap)
  }

  /** The head of the local list is handed out. */
  function Popped(p: Page): Page
    requires p.localHead.At?
  {
    var k := p.localHead.slot;
    Handed(p.(localHead := Load(p, k), localCount := Sub16(p.localCount, 1)), k)
  }

  /** The next virgin slot is handed out. */
  function Bumped(p: Page): Page {
    Handed(p.(bump := p.bump + 1), p.bump)
  }

  /** A stack of `n` slots becomes the local list, which was empty. */
  function Regained(p: Page, n: nat): Page {
    p.(head := Word(Null, NextTag(p.head.tag, p.tagMod)), localHead := p.head.ptr,
       localCount := Add16(p.localCount, n), remoteCount := Sub16(p.remoteCount, n))
  }

  /** The owner's allocation: local list, then virgin slots, then the remote stack `remote`; a page with none of
      them is dropped. */
  function Drawn(p: Page, t: Tid, remote: seq<nat>): Page {
    if p.localHead.At? then Popped(p)
    else if p.bump < p.cap then Bumped(p)
    else if remote != [] && p.head.ptr.At? then Popped(Regained(p, |remote|))
    else p.(cached := p.cached - {t})
  }

  /** The bump of an unowned page, and the claim of a thread that makes one. */
  function Claimed(p: Page, t: Tid, claim: bool): Page {
    if claim then Bumped(p).(owner := Some(t), cached := p.cached + {t}) else Bumped(p)
  }

  /** Slot `k` is taken from the client. */
  function Returned(p: Page, k: nat): Page {
    p.(live := p.live - {k}, bitmap := if p.debug then p.bitmap - {k} else p.bitmap)
  }

  /** Slot `k` is freed by thread `t`: onto the local list by the owner, onto the remote stack by others. */
  function FreedBy(p: Page, t: Tid, k: nat): Page {
    var q := Returned(p, k).(used := Sub16(p.used, 1));
    if p.owner == Some(t) then
      q.(link := Store(p, k, p.localHead), localHead := At(k), localCount := Add16(p.localCount, 1))
    else
      q.(link := Store(p, k, p.head.ptr), head := Word(At(k), NextTag(p.head.tag, p.tagMod)),
         remoteCount := Add16(p.remoteCount, 1))
  }
}
